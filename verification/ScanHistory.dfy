/** A scan is a history too: reconciliation followed by the loop, or by any
    interleaving of the pool, is a sequence of the atomic steps of the step
    machine, so that what every history keeps holds of it. */
module ScanHistory {
  import opened Wrappers
  import opened CatalogStore
  import opened World
  import History
  import Listing
  import Reconciliation
  import Pool
  import ScanLoop

  type State = History.State
  type Step = History.Step

  predicate OfScan(a: Step) {
    a.BeginScan? || a.Render? || a.Store? || a.EndRun?
  }

  ghost predicate Scans(s: State, t: State) {
    History.Reaches(s, t, OfScan)
  }

  lemma Join(s: State, m: State, t: State)
    requires Scans(s, m) && Scans(m, t)
    ensures Scans(s, t)
  {
    hide History.Reaches;
    History.ReachesOn(s, m, t, OfScan);
  }

  lemma One(s: State, a: Step)
    requires History.Enabled(s, a) && OfScan(a)
    ensures Scans(s, History.Next(s, a))
  {
    hide History.Enabled, History.Next, History.Reaches;
    History.ReachesNext(s, a, OfScan);
  }

  lemma Nothing(s: State)
    ensures Scans(s, s)
  {
    hide History.Reaches;
    History.ReachesSelf(s, OfScan);
  }

  /** The world with the rows and the thumbnails of a scan in progress. */
  function At(w: World, table: Table, thumbs: set<string>): State {
    History.State(w.(table := table, thumbs := thumbs), History.Idle)
  }

  ghost function During(w: World, table: Table, thumbs: set<string>, listed: set<Photo>): State {
    History.State(w.(table := table, thumbs := thumbs), History.Scanning(listed))
  }

  lemma Renders(w: World, table: Table, thumbs: set<string>, listed: set<Photo>, p: Photo)
    requires p in listed
    ensures Scans(During(w, table, thumbs, listed), During(w, table, thumbs + {ThumbPath(p.keyBase)}, listed))
  {
    hide Scans;
    One(During(w, table, thumbs, listed), History.Render(p));
  }

  lemma Stores(w: World, table: Table, thumbs: set<string>, listed: set<Photo>, p: Photo, meta: Metadata)
    requires p in listed
    ensures Scans(During(w, table, thumbs, listed), During(w, Upsert(table, p, meta), thumbs, listed))
    ensures table.rows.Keys <= Upsert(table, p, meta).rows.Keys
  {
    hide Scans;
    One(During(w, table, thumbs, listed), History.Store(p, meta));
  }

  // ---- The loop ----

  ghost predicate Listed(jobs: seq<ScanLoop.Job>, listed: set<Photo>) {
    forall i :: 0 <= i < |jobs| ==> jobs[i].photo in listed
  }

  lemma TurnScans(w: World, listed: set<Photo>, s: ScanLoop.Scan, job: ScanLoop.Job, force: bool)
    requires s.err.None? && job.photo in listed
    ensures var t := ScanLoop.Turn(s, job, force);
      && Scans(During(w, s.table, s.thumbs, listed), During(w, t.table, t.thumbs, listed))
      && s.table.rows.Keys <= t.table.rows.Keys
  {
    hide Scans, ShouldSkip, Upsert, During;
    var thumbs := s.thumbs + {ThumbPath(job.photo.keyBase)};
    Nothing(During(w, s.table, s.thumbs, listed));
    Renders(w, s.table, s.thumbs, listed, job.photo);
    Stores(w, s.table, thumbs, listed, job.photo, job.meta);
    Join(During(w, s.table, s.thumbs, listed), During(w, s.table, thumbs, listed),
         During(w, Upsert(s.table, job.photo, job.meta), thumbs, listed));
  }

  lemma {:induction false} LoopScans(w: World, listed: set<Photo>, start: ScanLoop.Scan, jobs: seq<ScanLoop.Job>, k: nat, force: bool)
    requires k <= |jobs| && Listed(jobs, listed)
    ensures var t := ScanLoop.After(start, jobs, k, force);
      && Scans(During(w, start.table, start.thumbs, listed), During(w, t.table, t.thumbs, listed))
      && start.table.rows.Keys <= t.table.rows.Keys
  {
    hide Scans, ScanLoop.Turn, During;
    if k == 0 {
      Nothing(During(w, start.table, start.thumbs, listed));
    } else {
      LoopScans(w, listed, start, jobs, k - 1, force);
      var s := ScanLoop.After(start, jobs, k - 1, force);
      if s.err.None? {
        TurnScans(w, listed, s, jobs[k - 1], force);
        var t := ScanLoop.Turn(s, jobs[k - 1], force);
        Join(During(w, start.table, start.thumbs, listed), During(w, s.table, s.thumbs, listed), During(w, t.table, t.thumbs, listed));
      }
    }
  }

  // ---- The pool ----

  lemma MainTouchesNothing(c: Pool.Config, s: Pool.State, giveUp: bool)
    ensures var t := Pool.MainStep(c, s, giveUp); t.table == s.table && t.thumbs == s.thumbs
  {
    hide Pool.Emit, Pool.Close;
    match s.main
    case CloseResults =>
    case _ =>
  }

  lemma ProducerTouchesNothing(c: Pool.Config, s: Pool.State, giveUp: bool)
    requires Pool.Shaped(c, s)
    ensures var t := Pool.ProducerStep(c, s, giveUp); t.table == s.table && t.thumbs == s.thumbs
  {
    hide Pool.Emit, Pool.Send, Pool.Close, ShouldSkip;
    match s.producer
    case Offer(_) =>
    case _ =>
  }

  lemma WorkerRenders(c: Pool.Config, s: Pool.State, k: nat, giveUp: bool)
    requires Pool.Shaped(c, s) && k < |s.workers|
    ensures var t := Pool.WorkerStep(c, s, k, giveUp);
      t.table == s.table
      && if s.workers[k].Working? && t.thumbs != s.thumbs then
           t.thumbs == s.thumbs + {ThumbPath(c.jobs[s.workers[k].i].photo.keyBase)} else t.thumbs == s.thumbs
  {
    hide Pool.Emit, Pool.Send, ThumbPath;
    match s.workers[k]
    case Working(_) =>
    case Idle =>
    case _ =>
  }

  lemma WriterStores(c: Pool.Config, s: Pool.State)
    requires Pool.Shaped(c, s)
    ensures var t := Pool.WriterStep(c, s);
      t.thumbs == s.thumbs
      && if s.writer.WGot? && t.table != s.table then
           t.table == Upsert(s.table, c.jobs[s.writer.i].photo, c.jobs[s.writer.i].meta) else t.table == s.table
  {
    hide Pool.Emit, Upsert;
    match s.writer
    case WGot(_) =>
    case WIdle =>
    case _ =>
  }

  /** A step of the pool renders one photo, stores one row, or touches neither. */
  lemma PoolStepScans(w: World, listed: set<Photo>, c: Pool.Config, s: Pool.State, a: Pool.Action)
    requires Pool.Enabled(c, s, a) && Listed(c.jobs, listed)
    ensures var t := Pool.Step(c, s, a);
      && Scans(During(w, s.table, s.thumbs, listed), During(w, t.table, t.thumbs, listed))
      && s.table.rows.Keys <= t.table.rows.Keys
  {
    hide Scans, During, Upsert, ThumbPath, Pool.MainStep, Pool.ProducerStep, Pool.WorkerStep, Pool.WriterStep, Pool.StatusStep,
         Pool.MainEnabled, Pool.ProducerEnabled, Pool.WriterEnabled;
    Nothing(During(w, s.table, s.thumbs, listed));
    match a
    case Main(giveUp) => MainTouchesNothing(c, s, giveUp);
    case Producer(giveUp) => ProducerTouchesNothing(c, s, giveUp);
    case Worker(k, giveUp) =>
      WorkerRenders(c, s, k, giveUp);
      if s.workers[k].Working? {
        Renders(w, s.table, s.thumbs, listed, c.jobs[s.workers[k].i].photo);
      }
    case Writer =>
      WriterStores(c, s);
      if s.writer.WGot? {
        Stores(w, s.table, s.thumbs, listed, c.jobs[s.writer.i].photo, c.jobs[s.writer.i].meta);
      }
    case StatusLoop => StatusTouchesNothing(s);
    case Cancel =>
  }

  lemma StatusTouchesNothing(s: Pool.State)
    ensures Pool.StatusStep(s).table == s.table && Pool.StatusStep(s).thumbs == s.thumbs
  {
  }

  lemma {:induction false} PoolScans(w: World, listed: set<Photo>, c: Pool.Config, states: seq<Pool.State>, actions: seq<Pool.Action>, n: nat)
    requires Pool.IsRun(c, states, actions) && n < |states| && Listed(c.jobs, listed)
    ensures Scans(During(w, c.table, c.thumbs, listed), During(w, states[n].table, states[n].thumbs, listed))
    ensures c.table.rows.Keys <= states[n].table.rows.Keys
  {
    hide Scans, During, Pool.Enabled, Pool.Step;
    if n == 0 {
      Nothing(During(w, c.table, c.thumbs, listed));
    } else {
      PoolScans(w, listed, c, states, actions, n - 1);
      PoolStepScans(w, listed, c, states[n - 1], actions[n - 1]);
      Join(During(w, c.table, c.thumbs, listed), During(w, states[n - 1].table, states[n - 1].thumbs, listed),
           During(w, states[n].table, states[n].thumbs, listed));
    }
  }

  // ---- The whole scan ----

  /** The scan of the listing starts from idle, and the photos to work on are
      listed ones. */
  ghost predicate Begins(w: World, prefix: string, objs: seq<ObjectRef>, jobs: seq<ScanLoop.Job>) {
    && History.Enabled(History.State(w, History.Idle), History.BeginScan(prefix, objs, None, {}))
    && Listed(jobs, History.PhotosOf(objs))
  }

  /** Every scan of a folder, or of the whole bucket, begins so. */
  lemma FolderScanBegins(w: World, prefix: string, objs: seq<ObjectRef>, jobs: seq<ScanLoop.Job>)
    requires WellKeyed(w) && Lists(objs, w, prefix) && Listed(jobs, History.PhotosOf(objs))
    requires forall i :: 0 <= i < |objs| ==> !LocalEtag(objs[i].etag)
    requires Reconciliation.IsFolder(prefix)
    ensures Begins(w, prefix, objs, jobs)
  {
    hide FromBucket, LocalEtag, Lists, Missing, Listing.Paired, History.PhotosOf, Reconciliation.IsFolder;
    forall k | k in w.table.rows
      ensures PrefixSpares(w.table.rows[k], prefix)
    {
      if FromBucket(w.table.rows[k].photo) {
        Reconciliation.FolderSpares(w.table.rows[k], prefix);
      }
    }
  }

  lemma Begun(w: World, prefix: string, objs: seq<ObjectRef>, stuck: set<string>, table: Table, thumbs: set<string>)
    requires Begins(w, prefix, objs, [])
    requires var w0 := Reconciled(w, Listing.Paired(objs).Keys, prefix, stuck);
      Scans(During(w0, w0.table, w0.thumbs, History.PhotosOf(objs)), During(w0, table, thumbs, History.PhotosOf(objs)))
    ensures Scans(History.State(w, History.Idle), At(Reconciled(w, Listing.Paired(objs).Keys, prefix, stuck), table, thumbs))
  {
    hide Scans, Reconciled, Listing.Paired, History.PhotosOf, Lists, LocalEtag, PrefixSpares;
    var w0 := Reconciled(w, Listing.Paired(objs).Keys, prefix, stuck);
    var idle := History.State(w, History.Idle);
    var begun := During(w0, w0.table, w0.thumbs, History.PhotosOf(objs));
    var done := During(w0, table, thumbs, History.PhotosOf(objs));
    One(idle, History.BeginScan(prefix, objs, None, stuck));
    assert w0.(table := w0.table, thumbs := w0.thumbs) == w0;
    Join(idle, begun, done);
    One(done, History.EndRun);
    Join(idle, done, At(w0, table, thumbs));
  }

  /** A row that reconciliation removed owns nothing in the bucket; the others are
      still there. */
  lemma RemovedByReconciliation(w: World, prefix: string, objs: seq<ObjectRef>, stuck: set<string>, k: string)
    requires WellKeyed(w) && Begins(w, prefix, objs, []) && k in w.table.rows
    ensures k !in Reconciled(w, Listing.Paired(objs).Keys, prefix, stuck).table.rows ==> Recorded(w.table.rows[k]) !! w.bucket.Keys
  {
    hide Recorded, Listing.Paired, Lists, LocalEtag, WellKeyed, PrefixSpares;
    if k in Missing(w, Listing.Paired(objs).Keys, prefix) {
      MissingIsGone(w, objs, prefix, k);
    }
  }

  /** The scan of the command line, reconciliation and then the loop stopped
      anywhere, is a history from idle to idle, and orphans nothing. */
  lemma LoopIsHistory(w: World, prefix: string, objs: seq<ObjectRef>, stuck: set<string>, jobs: seq<ScanLoop.Job>, n: nat, force: bool)
    requires WellKeyed(w) && Begins(w, prefix, objs, jobs) && n <= |jobs|
    ensures var w0 := Reconciled(w, Listing.Paired(objs).Keys, prefix, stuck);
      var end := ScanLoop.After(ScanLoop.Begin(w0.table, w0.thumbs, |jobs|), jobs, n, force);
      && Scans(History.State(w, History.Idle), At(w0, end.table, end.thumbs))
      && forall k :: k in w.table.rows && k !in end.table.rows ==> Recorded(w.table.rows[k]) !! w.bucket.Keys
  {
    hide Scans, Reconciled, Recorded, Listing.Paired, History.PhotosOf, WellKeyed, History.Enabled, During;
    var w0 := Reconciled(w, Listing.Paired(objs).Keys, prefix, stuck);
    var start := ScanLoop.Begin(w0.table, w0.thumbs, |jobs|);
    LoopScans(w0, History.PhotosOf(objs), start, jobs, n, force);
    var end := ScanLoop.After(start, jobs, n, force);
    Begun(w, prefix, objs, stuck, end.table, end.thumbs);
    forall k | k in w.table.rows && k !in end.table.rows
      ensures Recorded(w.table.rows[k]) !! w.bucket.Keys
    {
      RemovedByReconciliation(w, prefix, objs, stuck, k);
    }
  }

  /** The scan of the server, reconciliation and then any interleaving of the
      pool, looked at in any of its states, is one too, and orphans nothing. */
  lemma PoolIsHistory(w: World, prefix: string, objs: seq<ObjectRef>, stuck: set<string>, c: Pool.Config, states: seq<Pool.State>, actions: seq<Pool.Action>, n: nat)
    requires WellKeyed(w) && Begins(w, prefix, objs, c.jobs)
    requires var w0 := Reconciled(w, Listing.Paired(objs).Keys, prefix, stuck); c.table == w0.table && c.thumbs == w0.thumbs
    requires Pool.IsRun(c, states, actions) && n < |states|
    ensures Scans(History.State(w, History.Idle), At(Reconciled(w, Listing.Paired(objs).Keys, prefix, stuck), states[n].table, states[n].thumbs))
    ensures forall k :: k in w.table.rows && k !in states[n].table.rows ==> Recorded(w.table.rows[k]) !! w.bucket.Keys
  {
    hide Scans, Reconciled, Recorded, Listing.Paired, History.PhotosOf, WellKeyed, History.Enabled, During, Pool.IsRun;
    var w0 := Reconciled(w, Listing.Paired(objs).Keys, prefix, stuck);
    PoolScans(w0, History.PhotosOf(objs), c, states, actions, n);
    Begun(w, prefix, objs, stuck, states[n].table, states[n].thumbs);
    forall k | k in w.table.rows && k !in states[n].table.rows
      ensures Recorded(w.table.rows[k]) !! w.bucket.Keys
    {
      RemovedByReconciliation(w, prefix, objs, stuck, k);
    }
  }
}
