/** The main results about the worker pool. They speak of whole runs: any
    interleaving of the producer, the workers, the writer, the status loop, the
    run goroutine and a cancellation. */
module PoolTheorems {
  import opened Wrappers
  import opened CatalogStore
  import Status
  import ScanLoop
  import opened Pool
  import opened PoolInvariant
  import opened PoolOutcome
  import opened PoolProgress

  // ---- What the run has announced ----

  ghost predicate AllReported(s: State) {
    forall i :: 0 <= i < |s.stage| ==> s.stage[i].Reported?
  }

  ghost predicate Ending(c: Config, s: State) {
    && (s.main == SendPhase("done") ==> s.spawned && AllReported(s))
    && (Rank(s.main) >= 8 ==> s.events.sent != [] && s.events.sent[|s.events.sent| - 1].Phase?)
    && (Rank(s.main) >= 8 && s.events.sent[|s.events.sent| - 1] == Status.Phase("done") ==> s.spawned && AllReported(s))
    && (s.spawned || s.main.SendRunning? ==> Status.Announced(s.events.sent) == |c.jobs|)
  }

  /** At most one event more, and a total only if it is the right one. */
  ghost predicate GrowsBy(c: Config, before: EventLog, after: EventLog) {
    Grows(before, after)
    && (|after.sent| > |before.sent| && after.sent[|before.sent|].Total? ==> after.sent[|before.sent|].total == |c.jobs|)
  }

  lemma EmitGrows(c: Config, log: EventLog, ev: Event)
    requires !ev.Total?
    ensures GrowsBy(c, log, Emit(log, ev)) && GrowsBy(c, log, log)
  {
  }

  lemma ProducerGrows(c: Config, s: State, giveUp: bool)
    requires Shaped(c, s)
    ensures GrowsBy(c, s.events, ProducerStep(c, s, giveUp).events)
    ensures ProducerStep(c, s, giveUp).main == s.main && ProducerStep(c, s, giveUp).spawned == s.spawned
  {
    hide ShouldSkip, GrowsBy, Emit;
    match s.producer
    case SendCheckErr(i) => EmitGrows(c, s.events, Status.ItemFailed(Base(c, i), "skip-check: " + Text(c.jobs[i].checkErr)));
    case SendSkip(i) => EmitGrows(c, s.events, Status.Skip(Base(c, i)));
    case _ => EmitGrows(c, s.events, Status.Skip(""));
  }

  lemma WorkerGrows(c: Config, s: State, k: nat, giveUp: bool)
    requires Shaped(c, s) && k < |s.workers|
    ensures GrowsBy(c, s.events, WorkerStep(c, s, k, giveUp).events)
    ensures WorkerStep(c, s, k, giveUp).main == s.main && WorkerStep(c, s, k, giveUp).spawned == s.spawned
  {
    hide GrowsBy, Emit, ThumbPath, Send;
    match s.workers[k]
    case Started(i) => EmitGrows(c, s.events, Status.WorkerStart(k, Base(c, i)));
    case SendFail(i) => EmitGrows(c, s.events, Status.ItemFailed(Base(c, i), Text(c.jobs[i].procErr)));
    case _ => EmitGrows(c, s.events, Status.WorkerIdle(k));
  }

  lemma WriterGrows(c: Config, s: State)
    requires Shaped(c, s)
    ensures GrowsBy(c, s.events, WriterStep(c, s).events)
    ensures WriterStep(c, s).main == s.main && WriterStep(c, s).spawned == s.spawned
  {
    hide Base, Text, Upsert;
  }

  lemma AnnouncedGrows(c: Config, before: EventLog, after: EventLog)
    requires GrowsBy(c, before, after) && Status.Announced(before.sent) == |c.jobs|
    ensures Status.Announced(after.sent) == |c.jobs|
  {
  }

  /** While photos can still move, the run goroutine is waiting. */
  lemma EndingKeptByPool(c: Config, s: State, a: Action)
    requires Control(c, s) && Ending(c, s) && Enabled(c, s, a) && (a.Producer? || a.Worker? || a.Writer?)
    ensures Ending(c, Step(c, s, a))
  {
    hide ProducerStep, WorkerStep, WriterStep, GrowsBy;
    assert s.spawned && Rank(s.main) < 7;
    match a
    case Producer(giveUp) =>
      ProducerGrows(c, s, giveUp);
      AnnouncedGrows(c, s.events, ProducerStep(c, s, giveUp).events);
    case Worker(k, giveUp) =>
      WorkerGrows(c, s, k, giveUp);
      AnnouncedGrows(c, s.events, WorkerStep(c, s, k, giveUp).events);
    case Writer =>
      WriterGrows(c, s);
      AnnouncedGrows(c, s.events, WriterStep(c, s).events);
  }

  /** When everyone has gone and nobody cancelled, nothing is left anywhere. */
  lemma NothingLeft(c: Config, s: State)
    requires Valid(c) && Control(c, s) && Places(c, s) && s.main.WaitProducer? && s.producer.PExit? && !s.cancelled
    ensures AllReported(s)
  {
    assert s.workers[0].WExit? && s.jobs.buf == [];
    assert s.writer.WrExit? && s.results.buf == [];
    forall i | 0 <= i < |s.stage|
      ensures s.stage[i].Reported?
    {
      assert s.stage[i] != InJobs && s.stage[i] != InResults;
    }
  }

  lemma ReportedAlike(s: State, t: State)
    requires s.stage == t.stage
    ensures AllReported(s) == AllReported(t)
  {
  }

  lemma EventsOpen(c: Config, s: State)
    requires Control(c, s)
    ensures s.events.closed <==> Rank(s.main) >= 9
    ensures (s.spawned ==> Rank(s.main) >= 3) && (3 <= Rank(s.main) <= 6 ==> s.spawned)
  {
  }

  /** A step of the run goroutine that sends nothing. */
  lemma EndingKeptSilently(c: Config, s: State, giveUp: bool)
    requires Ending(c, s) && MainEnabled(c, s, giveUp)
    requires !s.main.SendTotal? && !s.main.SendRunning? && !s.main.SendPhase?
    requires s.spawned ==> Rank(s.main) >= 3
    requires s.main.WaitProducer? && !s.cancelled ==> s.spawned && AllReported(s)
    ensures Ending(c, MainStep(c, s, giveUp))
  {
    hide Shaped, Status.Announced;
    var t := MainStep(c, s, giveUp);
    MainMovesNothing(c, s, giveUp);
    assert AllReported(t) == AllReported(s) by { ReportedAlike(s, t); }
    assert t.events.sent == s.events.sent && t.spawned == s.spawned;
  }

  /** A step that sends a total or a phase. */
  lemma EndingKeptSending(c: Config, s: State, giveUp: bool)
    requires Ending(c, s) && MainEnabled(c, s, giveUp) && !s.events.closed
    requires s.main.SendTotal? || s.main.SendRunning? || s.main.SendPhase?
    requires s.spawned ==> Rank(s.main) >= 3
    ensures Ending(c, MainStep(c, s, giveUp))
  {
    hide Shaped;
    var t := MainStep(c, s, giveUp);
    MainMovesNothing(c, s, giveUp);
    assert AllReported(t) == AllReported(s) by { ReportedAlike(s, t); }
    assert t.events.sent[..|t.events.sent| - 1] == s.events.sent;
  }

  lemma EndingKeptByMain(c: Config, s: State, giveUp: bool)
    requires Valid(c) && Control(c, s) && Places(c, s) && Ending(c, s) && MainEnabled(c, s, giveUp)
    ensures Ending(c, MainStep(c, s, giveUp))
  {
    hide Places, AllReported, Control, Ending, MainStep, MainEnabled;
    EventsOpen(c, s);
    if s.main.SendTotal? || s.main.SendRunning? || s.main.SendPhase? {
      EndingKeptSending(c, s, giveUp);
    } else {
      if s.main.WaitProducer? && !s.cancelled {
        assert s.producer.PExit? by { ProducerGone(c, s, giveUp); }
        NothingLeft(c, s);
      }
      EndingKeptSilently(c, s, giveUp);
    }
  }

  lemma ProducerGone(c: Config, s: State, giveUp: bool)
    requires MainEnabled(c, s, giveUp) && s.main.WaitProducer?
    ensures s.producer.PExit?
  {
  }

  lemma EndingKept(c: Config, s: State, a: Action)
    requires Valid(c) && Control(c, s) && Places(c, s) && Ending(c, s) && Enabled(c, s, a)
    ensures Ending(c, Step(c, s, a))
  {
    hide Control, Places, MainStep, MainEnabled, ProducerStep, WorkerStep, WriterStep, ProducerEnabled, WorkerEnabled, WriterEnabled, Shaped;
    match a
    case Main(giveUp) => EndingKeptByMain(c, s, giveUp);
    case Cancel =>
    case StatusLoop =>
    case _ => EndingKeptByPool(c, s, a);
  }

  // ---- Whole runs ----

  lemma {:induction false} RunKeeps(c: Config, states: seq<State>, actions: seq<Action>, n: nat)
    requires Valid(c) && IsRun(c, states, actions) && n < |states|
    ensures Inv(c, states[n]) && Ending(c, states[n])
  {
    hide Inv, Ending, Valid;
    if n == 0 {
      InvInit(c);
      EndingInit(c);
    } else {
      RunKeeps(c, states, actions, n - 1);
      InvKept(c, states[n - 1], actions[n - 1]);
      InvParts(c, states[n - 1]);
      EndingKept(c, states[n - 1], actions[n - 1]);
    }
  }

  lemma EndingInit(c: Config)
    ensures Ending(c, Init(c))
  {
  }

  lemma InvParts(c: Config, s: State)
    requires Inv(c, s)
    ensures Control(c, s) && Places(c, s)
  {
  }

  /** In every run no send hits a closed channel and no channel is closed twice;
      until the run has returned some process can move; and afterwards none can,
      so that nothing of the run writes the store any more. */
  lemma SafeAndLive(c: Config, states: seq<State>, actions: seq<Action>, n: nat)
    requires Valid(c) && IsRun(c, states, actions) && n < |states|
    ensures !Panicked(states[n])
    ensures states[n].running ==> exists a: Action :: Enabled(c, states[n], a) && !a.Cancel?
    ensures !states[n].running ==> forall a: Action :: !Enabled(c, states[n], a)
  {
    RunKeeps(c, states, actions, n);
    InvParts(c, states[n]);
    NotPanicked(c, states[n]);
    if states[n].running {
      var a := NeverStuck(c, states[n]);
    } else {
      forall a: Action
        ensures !Enabled(c, states[n], a)
      {
        ReturnedIsQuiet(c, states[n], a);
      }
    }
  }

  lemma ReturnedIsQuiet(c: Config, s: State, a: Action)
    requires Control(c, s) && !s.running
    ensures !Enabled(c, s, a)
  {
  }

  /** No run is longer than its work: every schedule terminates, cancelled or not. */
  lemma {:induction false} Terminates(c: Config, states: seq<State>, actions: seq<Action>)
    requires Valid(c) && IsRun(c, states, actions)
    ensures |actions| <= 13 * |c.jobs| + 3 * c.workers + 30
  {
    PhotosAtStart(|c.jobs|);
    CrewAtStart(c.workers);
    assert Measure(Init(c)) == 13 * |c.jobs| + 3 * c.workers + 30;
    StepsUsed(c, states, actions, |actions|);
  }

  lemma {:induction false} StepsUsed(c: Config, states: seq<State>, actions: seq<Action>, n: nat)
    requires Valid(c) && IsRun(c, states, actions) && n < |states|
    ensures 0 <= Measure(states[n]) <= Measure(Init(c)) - n
  {
    hide Measure, Inv, Enabled, Step, Valid, Ending;
    RunKeeps(c, states, actions, n);
    InvParts(c, states[n]);
    MeasureNat(c, states[n]);
    if n > 0 {
      StepsUsed(c, states, actions, n - 1);
      RunKeeps(c, states, actions, n - 1);
      InvParts(c, states[n - 1]);
      Descends(c, states[n - 1], actions[n - 1]);
    }
  }

  // ---- Accounting ----

  /** A finished run: its snapshot has seen every event. */
  ghost predicate Finished(c: Config, states: seq<State>, actions: seq<Action>, s: State, snap: Status.Snapshot) {
    && IsRun(c, states, actions) && s == states[|actions|] && !s.running
    && s.events.read <= |s.events.sent| && snap == SnapshotOf(c, s)
  }

  lemma FinishedFacts(c: Config, states: seq<State>, actions: seq<Action>, s: State, snap: Status.Snapshot)
    requires Valid(c) && Finished(c, states, actions, s, snap)
    ensures Inv(c, s) && Ending(c, s) && s.main.Returned?
    ensures snap == Status.Replay(StartSnapshot(c), s.events.sent)
    ensures snap.phase == "done" ==> s.spawned && AllReported(s)
    ensures snap.total == Status.Announced(s.events.sent)
  {
    hide Inv, Valid;
    RunKeeps(c, states, actions, |actions|);
    InvParts(c, s);
    assert s.events.read == |s.events.sent| && s.main.Returned?;
    assert s.events.sent[..s.events.read] == s.events.sent;
    Status.ReplayTotal(StartSnapshot(c), s.events.sent);
  }

  /** A set of key bases is no larger than the run. */
  lemma {:induction false} BasesBounded(c: Config, k: nat)
    requires Valid(c) && k <= |c.jobs|
    ensures |set i | 0 <= i < k :: Base(c, i)| == k
  {
    var all := set i | 0 <= i < k :: Base(c, i);
    if k == 0 {
      assert all == {};
    } else {
      BasesBounded(c, k - 1);
      var less := set i | 0 <= i < k - 1 :: Base(c, i);
      assert all == less + {Base(c, k - 1)};
      assert Base(c, k - 1) !in less;
    }
  }

  lemma SubsetSize<T>(a: set<T>, b: set<T>)
    requires a <= b
    ensures |a| <= |b|
  {
    assert b == a + (b - a);
  }

  /** Of every finished run: no photo is counted twice and, when the phase says
      "done", every listed photo was counted exactly once, under the one outcome
      its job decides; the counters, the total and the kept errors agree with
      the log of the run. */
  lemma Accounts(c: Config, states: seq<State>, actions: seq<Action>, s: State, snap: Status.Snapshot)
    requires Valid(c) && Finished(c, states, actions, s, snap)
    ensures |s.stage| == |c.jobs| && snap.processed + snap.skipped + snap.failed <= snap.total
    ensures snap.phase == "done" ==>
      && snap.processed + snap.skipped + snap.failed == snap.total == |c.jobs|
      && (forall i :: 0 <= i < |c.jobs| ==> s.stage[i] == Reported(Fate(c, i)))
      && ToSet(Status.Items(s.events.sent)) == set i | 0 <= i < |c.jobs| :: Base(c, i)
    ensures snap.processed == |BasesAt(c, s.stage, IsDone)| && snap.skipped == |BasesAt(c, s.stage, IsSkipped)|
    ensures snap.failed == |Status.Failures(s.events.sent)|
    ensures snap.errors == Status.LastOf(Status.Failures(s.events.sent), Status.MAX_ERRORS_KEPT)
  {
    hide Finished, Valid, Ending, Control, QueueIs, WorkerPlaces, WriterPlaces, Catalogued;
    FinishedFacts(c, states, actions, s, snap);
    Status.ReplayAccounts(StartSnapshot(c), s.events.sent);
    Counted(c, s);
    assert forall i :: 0 <= i < |c.jobs| ==> Fits(c, i, s.stage[i]);
    if snap.phase == "done" {
      EveryoneCounted(c, s);
      SpawnedAnnounced(c, s);
    } else if s.spawned {
      SpawnedAnnounced(c, s);
    } else {
      NothingCounted(c, s);
    }
  }

  lemma SpawnedAnnounced(c: Config, s: State)
    requires Ending(c, s) && s.spawned
    ensures Status.Announced(s.events.sent) == |c.jobs|
  {
  }

  lemma Counted(c: Config, s: State)
    requires Valid(c) && Tells(c, s.events.sent, s.stage)
    ensures |Status.Items(s.events.sent)| <= |c.jobs|
  {
    BasesBounded(c, |c.jobs|);
    SubsetSize(BasesAt(c, s.stage, IsReported), set i | 0 <= i < |c.jobs| :: Base(c, i));
  }

  lemma EveryoneCounted(c: Config, s: State)
    requires Valid(c) && Tells(c, s.events.sent, s.stage) && AllReported(s)
    ensures |Status.Items(s.events.sent)| == |c.jobs|
    ensures ToSet(Status.Items(s.events.sent)) == set i | 0 <= i < |c.jobs| :: Base(c, i)
  {
    BasesBounded(c, |c.jobs|);
    assert forall i :: 0 <= i < |s.stage| ==> IsReported(s.stage[i]);
    assert BasesAt(c, s.stage, IsReported) == set i | 0 <= i < |c.jobs| :: Base(c, i);
  }

  /** A run whose listing failed has counted nothing. */
  lemma NothingCounted(c: Config, s: State)
    requires Control(c, s) && Places(c, s) && Tells(c, s.events.sent, s.stage) && !s.spawned
    ensures |Status.Items(s.events.sent)| == 0
  {
    assert forall i :: 0 <= i < |s.stage| ==> !IsReported(s.stage[i]);
    assert BasesAt(c, s.stage, IsReported) == {};
  }

  // ---- The pool refines the loop ----

  /** The key bases of the first k photos with the given fate. */
  ghost function Fated(c: Config, k: nat, o: Outcome): set<string>
    requires k <= |c.jobs|
  {
    set i | 0 <= i < k && Fate(c, i) == o :: Base(c, i)
  }

  lemma FatedNext(c: Config, k: nat, o: Outcome)
    requires Valid(c) && k < |c.jobs|
    ensures Base(c, k) !in Fated(c, k, o)
    ensures Fated(c, k + 1, o) == Fated(c, k, o) + if Fate(c, k) == o then {Base(c, k)} else {}
  {
  }

  /** The loop has met the fates of the first k photos. */
  ghost predicate LoopAt(c: Config, k: nat, s: ScanLoop.Scan)
    requires k <= |c.jobs|
  {
    && s.err.None?
    && CatalogIs(c, s.table, s.thumbs, Fated(c, k, Done), Fated(c, k, Done) + Fated(c, k, StoreFailed))
    && s.stats.processed == |Fated(c, k, Done)| && s.stats.skipped == |Fated(c, k, Skipped)|
    && s.stats.processed + s.stats.skipped + s.stats.failed == k
  }

  lemma LoopTurnCatalog(c: Config, k: nat, s: ScanLoop.Scan)
    requires Valid(c) && k < |c.jobs| && !CheckFails(c, k) && s.err.None?
    requires CatalogIs(c, s.table, s.thumbs, Fated(c, k, Done), Fated(c, k, Done) + Fated(c, k, StoreFailed))
    ensures var t := ScanLoop.Turn(s, c.jobs[k], c.force);
      && t.err.None?
      && CatalogIs(c, t.table, t.thumbs, Fated(c, k + 1, Done), Fated(c, k + 1, Done) + Fated(c, k + 1, StoreFailed))
      && t.stats == (match Fate(c, k)
                     case Done => s.stats.(processed := s.stats.processed + 1)
                     case Skipped => s.stats.(skipped := s.stats.skipped + 1)
                     case _ => s.stats.(failed := s.stats.failed + 1))
  {
    hide CatalogIs, Fated, ShouldSkip, Valid, Upsert;
    var base := Base(c, k);
    FatedNext(c, k, Done);
    FatedNext(c, k, StoreFailed);
    var done, stored := Fated(c, k, Done), Fated(c, k, StoreFailed);
    UntouchedSkip(c, s.table, s.thumbs, done, done + stored, k);
    var fate := Fate(c, k);
    if fate.StoreFailed? || fate.Done? {
      RenderAdds(c, s.table, s.thumbs, done, done + stored, base);
      assert done + stored + {base} == (done + {base}) + stored == done + (stored + {base});
      if fate.Done? {
        UpsertWrites(c, s.table, s.thumbs + {ThumbPath(base)}, done, done + stored + {base}, k);
        assert Fated(c, k + 1, StoreFailed) == stored;
      } else {
        assert Fated(c, k + 1, Done) == done;
      }
    } else {
      assert Fated(c, k + 1, Done) == done && Fated(c, k + 1, StoreFailed) == stored;
    }
  }

  lemma LoopTurn(c: Config, k: nat, s: ScanLoop.Scan)
    requires Valid(c) && k < |c.jobs| && !CheckFails(c, k) && LoopAt(c, k, s)
    ensures LoopAt(c, k + 1, ScanLoop.Turn(s, c.jobs[k], c.force))
  {
    hide CatalogIs, Fated, Valid, Fate, ScanLoop.Turn;
    LoopTurnCatalog(c, k, s);
    FatedNext(c, k, Done);
    FatedNext(c, k, Skipped);
  }

  lemma LoopBegins(c: Config)
    ensures LoopAt(c, 0, ScanLoop.Begin(c.table, c.thumbs, |c.jobs|))
  {
    assert ThumbPaths({}) == {};
  }

  /** The loop meets the same fates in list order. */
  lemma {:induction false} LoopFates(c: Config, k: nat)
    requires Valid(c) && k <= |c.jobs| && forall i :: 0 <= i < k ==> !CheckFails(c, i)
    ensures LoopAt(c, k, ScanLoop.After(ScanLoop.Begin(c.table, c.thumbs, |c.jobs|), c.jobs, k, c.force))
  {
    hide LoopAt, Valid, ScanLoop.Turn, ScanLoop.Begin;
    if k == 0 {
      LoopBegins(c);
    } else {
      LoopFates(c, k - 1);
      var s := ScanLoop.After(ScanLoop.Begin(c.table, c.thumbs, |c.jobs|), c.jobs, k - 1, c.force);
      LoopGoesOn(c, k - 1, s);
      LoopTurn(c, k - 1, s);
    }
  }

  lemma LoopGoesOn(c: Config, k: nat, s: ScanLoop.Scan)
    requires k <= |c.jobs| && LoopAt(c, k, s)
    ensures s.err.None?
  {
  }

  /** Two catalogs with the same rows, up to the ids given to new rows. */
  ghost predicate SameUpToIds(c: Config, a: Table, b: Table) {
    && a.rows.Keys == b.rows.Keys
    && forall k :: k in a.rows ==>
         a.rows[k].(id := 0) == b.rows[k].(id := 0) && (k in c.table.rows ==> a.rows[k].id == b.rows[k].id)
  }

  lemma CatalogIsDetermines(c: Config, a: Table, ta: set<string>, b: Table, tb: set<string>, written: set<string>, rendered: set<string>)
    requires written <= set i | 0 <= i < |c.jobs| :: Base(c, i)
    requires CatalogIs(c, a, ta, written, rendered) && CatalogIs(c, b, tb, written, rendered)
    ensures SameUpToIds(c, a, b) && ta == tb
  {
    forall k | k in a.rows
      ensures a.rows[k].(id := 0) == b.rows[k].(id := 0) && (k in c.table.rows ==> a.rows[k].id == b.rows[k].id)
    {
      if k in written {
        var i :| 0 <= i < |c.jobs| && Base(c, i) == k;
        assert WrittenRow(c, i, a.rows[k]) && WrittenRow(c, i, b.rows[k]);
      }
    }
  }

  /** An interleaving that ends with "done" leaves the catalog, the thumbnails
      and the counters that the sequential loop leaves, for any pool size. */
  lemma PoolRefinesLoop(c: Config, states: seq<State>, actions: seq<Action>, s: State, snap: Status.Snapshot)
    requires Valid(c) && Finished(c, states, actions, s, snap) && snap.phase == "done"
    requires forall i :: 0 <= i < |c.jobs| ==> !CheckFails(c, i)
    ensures var loop := ScanLoop.After(ScanLoop.Begin(c.table, c.thumbs, |c.jobs|), c.jobs, |c.jobs|, c.force);
      && loop.err.None?
      && SameUpToIds(c, s.table, loop.table) && s.thumbs == loop.thumbs
      && snap.processed == loop.stats.processed && snap.skipped == loop.stats.skipped && snap.failed == loop.stats.failed
  {
    hide Inv, CatalogIs, SameUpToIds, Valid, Finished;
    Accounts(c, states, actions, s, snap);
    FinishedFacts(c, states, actions, s, snap);
    LoopFates(c, |c.jobs|);
    FinalCatalog(c, s);
    var loop := ScanLoop.After(ScanLoop.Begin(c.table, c.thumbs, |c.jobs|), c.jobs, |c.jobs|, c.force);
    var n := |c.jobs|;
    CatalogIsDetermines(c, s.table, s.thumbs, loop.table, loop.thumbs, Fated(c, n, Done), Fated(c, n, Done) + Fated(c, n, StoreFailed));
  }

  lemma FinalCatalog(c: Config, s: State)
    requires Inv(c, s) && AllReported(s)
    ensures var n := |c.jobs|;
      && CatalogIs(c, s.table, s.thumbs, Fated(c, n, Done), Fated(c, n, Done) + Fated(c, n, StoreFailed))
      && BasesAt(c, s.stage, IsDone) == Fated(c, n, Done) && BasesAt(c, s.stage, IsSkipped) == Fated(c, n, Skipped)
  {
    hide Control, Places, CatalogIs, Tells, Fate;
    var n := |c.jobs|;
    assert forall i :: 0 <= i < n ==> Fits(c, i, s.stage[i]) && s.stage[i] == Reported(Fate(c, i));
    assert BasesAt(c, s.stage, IsWritten) == Fated(c, n, Done);
    assert BasesAt(c, s.stage, IsRendered) == Fated(c, n, Done) + Fated(c, n, StoreFailed);
    assert BasesAt(c, s.stage, IsDone) == Fated(c, n, Done);
    assert BasesAt(c, s.stage, IsSkipped) == Fated(c, n, Skipped);
  }

  /** The one difference: a failed skip check stops the loop with its error, and
      is one more failed photo for the pool. */
  lemma {:induction false} LoopFailsExactlyOnCheck(c: Config, k: nat)
    requires Valid(c) && k <= |c.jobs|
    ensures ScanLoop.After(ScanLoop.Begin(c.table, c.thumbs, |c.jobs|), c.jobs, k, c.force).err.None?
      <==> forall i :: 0 <= i < k ==> !CheckFails(c, i)
  {
    if k > 0 {
      LoopFailsExactlyOnCheck(c, k - 1);
      assert CheckFails(c, k - 1) <==> c.jobs[k - 1].checkErr.Some? && !c.force;
    }
  }
}
