/** What a run of the pool says while it goes on and when it ends: each failure with
    its cause, each phase for its reason (worker/coordinator.go:165-321). */
module PoolMessages {
  import opened Wrappers
  import opened CatalogStore
  import Status
  import opened Pool
  import opened PoolInvariant
  import opened PoolOutcome
  import opened PoolTheorems

  /** An error that happened to photo i, in the words of the run. */
  predicate Reason(c: Config, i: nat, msg: string)
    requires i < |c.jobs|
  {
    var job := c.jobs[i];
    || (job.checkErr.Some? && !c.force && msg == "skip-check: " + job.checkErr.value)
    || (job.procErr.Some? && msg == job.procErr.value)
    || (job.storeErr.Some? && msg == "store: " + job.storeErr.value)
  }

  /** The event tells the truth about the run. */
  ghost predicate Truthful(c: Config, ev: Event) {
    match ev
    case Phase(phase) => phase in {"running", "done", "cancelled", "error"}
    case Total(n) => n == |c.jobs|
    case WorkerStart(k, base) => k < c.workers && exists i :: 0 <= i < |c.jobs| && c.jobs[i].photo.keyBase == base
    case WorkerIdle(k) => k < c.workers
    case ItemDone(base, bytes) => bytes == 0 && exists i :: 0 <= i < |c.jobs| && c.jobs[i].photo.keyBase == base && c.jobs[i].storeErr.None?
    case ItemFailed(base, msg) => exists i :: 0 <= i < |c.jobs| && c.jobs[i].photo.keyBase == base && Reason(c, i, msg)
    case Skip(base) => !c.force && exists i :: 0 <= i < |c.jobs| && c.jobs[i].photo.keyBase == base
    case Removed(_) => false
  }

  /** At most one event more, and a truthful one. */
  ghost predicate TellsTruth(c: Config, before: EventLog, after: EventLog) {
    || after.sent == before.sent
    || (|after.sent| == |before.sent| + 1 && after.sent[..|before.sent|] == before.sent && Truthful(c, after.sent[|before.sent|]))
  }

  lemma OneTruth(c: Config, log: EventLog, ev: Event)
    requires Truthful(c, ev)
    ensures TellsTruth(c, log, Emit(log, ev))
  {
    hide Truthful;
  }

  lemma ProducerTells(c: Config, s: State, giveUp: bool)
    requires Shaped(c, s) && Fates(c, s)
    ensures TellsTruth(c, s.events, ProducerStep(c, s, giveUp).events)
  {
    hide ShouldSkip, Emit, Reason, TellsTruth, Fits;
    match s.producer
    case SendCheckErr(i) =>
      var msg := "skip-check: " + Text(c.jobs[i].checkErr);
      CheckReason(c, i);
      OneTruth(c, s.events, Status.ItemFailed(Base(c, i), msg));
    case SendSkip(i) =>
      ForceSkipsNone(c, i);
      OneTruth(c, s.events, Status.Skip(Base(c, i)));
    case _ => NoNews(c, s.events);
  }

  lemma NoNews(c: Config, log: EventLog)
    ensures TellsTruth(c, log, log)
  {
  }

  lemma CheckReason(c: Config, i: nat)
    requires i < |c.jobs|
    ensures CheckFails(c, i) ==> Reason(c, i, "skip-check: " + Text(c.jobs[i].checkErr))
    ensures c.jobs[i].procErr.Some? ==> Reason(c, i, Text(c.jobs[i].procErr))
    ensures c.jobs[i].storeErr.Some? ==> Reason(c, i, "store: " + Text(c.jobs[i].storeErr))
  {
  }

  lemma ForceSkipsNone(c: Config, i: nat)
    requires i < |c.jobs|
    ensures c.force ==> Wanted(c, i)
  {
  }

  lemma WorkerTells(c: Config, s: State, k: nat, giveUp: bool)
    requires Shaped(c, s) && Fates(c, s) && k < |s.workers|
    ensures TellsTruth(c, s.events, WorkerStep(c, s, k, giveUp).events)
  {
    hide Emit, Send, ThumbPath, Reason, TellsTruth, Fits;
    match s.workers[k]
    case Started(i) => OneTruth(c, s.events, Status.WorkerStart(k, Base(c, i)));
    case SendFail(i) =>
      CheckReason(c, i);
      OneTruth(c, s.events, Status.ItemFailed(Base(c, i), Text(c.jobs[i].procErr)));
    case SendIdle => OneTruth(c, s.events, Status.WorkerIdle(k));
    case _ => NoNews(c, s.events);
  }

  lemma WriterTells(c: Config, s: State)
    requires Inv(c, s)
    ensures TellsTruth(c, s.events, WriterStep(c, s).events)
  {
    hide Emit, Upsert, Reason, TellsTruth, Control, Catalogued, Tells;
    if s.writer.WSend? {
      var i, ok := s.writer.i, s.writer.ok;
      WriterHolds(c, s);
      CheckReason(c, i);
      OneTruth(c, s.events, if ok then Status.ItemDone(Base(c, i), 0) else Status.ItemFailed(Base(c, i), "store: " + Text(c.jobs[i].storeErr)));
    } else {
      NoNews(c, s.events);
    }
  }

  lemma WriterHolds(c: Config, s: State)
    requires Inv(c, s) && s.writer.WSend?
    ensures s.writer.i < |c.jobs| && (s.writer.ok <==> c.jobs[s.writer.i].storeErr.None?)
  {
    hide Catalogued, Tells;
    assert s.stage[s.writer.i] == Stored(s.writer.ok);
    assert Fits(c, s.writer.i, s.stage[s.writer.i]);
  }

  /** The phase that a run may end with, and why. */
  predicate Ends(c: Config, cancelled: bool, phase: string) {
    match phase
    case "done" => c.listErr.None?
    case "error" => c.listErr.Some?
    case "cancelled" => cancelled
    case _ => false
  }

  /** The run is about to say how it ends, or has said so last. */
  ghost predicate EndsRight(c: Config, s: State) {
    && (1 <= Rank(s.main) <= 6 ==> c.listErr.None?)
    && (s.main.SendPhase? ==> Ends(c, s.cancelled, s.main.phase))
    && (Rank(s.main) >= 8 ==>
          && s.events.sent != [] && s.events.sent[|s.events.sent| - 1].Phase?
          && Ends(c, s.cancelled, s.events.sent[|s.events.sent| - 1].phase))
  }

  lemma MainTells(c: Config, s: State, giveUp: bool)
    requires EndsRight(c, s) && MainEnabled(c, s, giveUp) && !s.events.closed
    ensures TellsTruth(c, s.events, MainStep(c, s, giveUp).events)
  {
    hide TellsTruth, Emit, Shaped;
    NoNews(c, s.events);
    match s.main
    case SendTotal => OneTruth(c, s.events, Status.Total(|c.jobs|));
    case SendRunning => OneTruth(c, s.events, Status.Phase("running"));
    case SendPhase(phase) => OneTruth(c, s.events, Status.Phase(phase));
    case CloseEvents => SameNews(c, s.events, MainStep(c, s, giveUp).events);
    case _ =>
  }

  lemma SameNews(c: Config, before: EventLog, after: EventLog)
    requires after.sent == before.sent
    ensures TellsTruth(c, before, after)
  {
  }

  lemma MainQuietLate(c: Config, s: State, giveUp: bool)
    requires s.events.closed && MainEnabled(c, s, giveUp) && Rank(s.main) >= 9
    ensures MainStep(c, s, giveUp).events == s.events
  {
  }

  lemma MainEndsRight(c: Config, s: State, giveUp: bool)
    requires Control(c, s) && EndsRight(c, s) && MainEnabled(c, s, giveUp)
    ensures EndsRight(c, MainStep(c, s, giveUp))
  {
    hide Shaped;
  }

  /** No one but the run goroutine is about once it is about to end. */
  lemma PoolEndsRight(c: Config, s: State, a: Action)
    requires Control(c, s) && EndsRight(c, s) && Enabled(c, s, a) && (a.Producer? || a.Worker? || a.Writer?)
    ensures EndsRight(c, Step(c, s, a))
  {
    hide ProducerStep, WorkerStep, WriterStep, GrowsBy;
    assert s.spawned && Rank(s.main) < 7;
    match a
    case Producer(giveUp) => ProducerGrows(c, s, giveUp);
    case Worker(k, giveUp) => WorkerGrows(c, s, k, giveUp);
    case Writer => WriterGrows(c, s);
  }

  lemma StepEndsRight(c: Config, s: State, a: Action)
    requires Control(c, s) && EndsRight(c, s) && Enabled(c, s, a)
    ensures EndsRight(c, Step(c, s, a))
  {
    hide Control, MainStep, MainEnabled, ProducerStep, WorkerStep, WriterStep, ProducerEnabled, WorkerEnabled, WriterEnabled, Shaped;
    match a
    case Main(giveUp) => MainEndsRight(c, s, giveUp);
    case Cancel =>
    case StatusLoop =>
    case _ => PoolEndsRight(c, s, a);
  }

  lemma WorkerIs(c: Config, s: State, k: nat, giveUp: bool)
    requires WorkerEnabled(c, s, k, giveUp)
    ensures k < |s.workers|
  {
  }

  lemma StepTells(c: Config, s: State, a: Action)
    requires Inv(c, s) && EndsRight(c, s) && Enabled(c, s, a)
    ensures TellsTruth(c, s.events, Step(c, s, a).events)
  {
    hide MainStep, ProducerStep, WorkerStep, WriterStep, ProducerEnabled, WorkerEnabled, WriterEnabled, Truthful, Fits, Places, Catalogued, Tells, EndsRight;
    match a
    case Main(giveUp) =>
      EventsOpen(c, s);
      if s.events.closed {
        MainQuietLate(c, s, giveUp);
      } else {
        MainTells(c, s, giveUp);
      }
    case Producer(giveUp) => ProducerTells(c, s, giveUp);
    case Worker(k, giveUp) =>
      WorkerIs(c, s, k, giveUp);
      WorkerTells(c, s, k, giveUp);
    case Writer => WriterTells(c, s);
    case Cancel =>
    case StatusLoop =>
  }

  ghost predicate AllTruthful(c: Config, sent: seq<Event>) {
    forall n :: 0 <= n < |sent| ==> Truthful(c, sent[n])
  }

  /** Every event of every run tells the truth. */
  lemma {:induction false} RunTells(c: Config, states: seq<State>, actions: seq<Action>, n: nat)
    requires Valid(c) && IsRun(c, states, actions) && n < |states|
    ensures EndsRight(c, states[n]) && AllTruthful(c, states[n].events.sent)
  {
    hide Inv, Valid, EndsRight, Truthful, Enabled, Step;
    if n == 0 {
      NothingTold(c);
    } else {
      RunTells(c, states, actions, n - 1);
      RunKeeps(c, states, actions, n - 1);
      InvParts(c, states[n - 1]);
      StepTells(c, states[n - 1], actions[n - 1]);
      StepEndsRight(c, states[n - 1], actions[n - 1]);
    }
  }

  lemma NothingTold(c: Config)
    ensures EndsRight(c, Init(c)) && AllTruthful(c, Init(c).events.sent)
  {
  }

  /** A finished run says "done" or "error" as its listing went, or "cancelled" if it
      was; one that was not cancelled says which of the first two. */
  lemma EndsAs(c: Config, states: seq<State>, actions: seq<Action>, s: State, snap: Status.Snapshot)
    requires Valid(c) && Finished(c, states, actions, s, snap)
    ensures snap.phase == "done" || snap.phase == "error" || snap.phase == "cancelled"
    ensures snap.phase == "done" ==> c.listErr == None
    ensures snap.phase == "error" ==> c.listErr != None
    ensures snap.phase == "cancelled" ==> s.cancelled
    ensures !s.cancelled ==> snap.phase == if c.listErr == None then "done" else "error"
  {
    hide Inv, Valid, Ending;
    RunTells(c, states, actions, |actions|);
    FinishedFacts(c, states, actions, s, snap);
    Status.ReplayTotal(StartSnapshot(c), s.events.sent);
  }

  /** The snapshot a run starts with: nothing counted, every worker idle. */
  lemma StartMeans(c: Config)
    ensures var s := StartSnapshot(c);
      && s.phase == "listing" && s.total == s.processed == s.skipped == s.failed == s.bytesFreed == s.removed == 0
      && s.lastError == "" && s.errors == [] && |s.workers| == c.workers
      && forall k :: 0 <= k < c.workers ==> s.workers[k] == Status.WorkerSlot(false, "", "")
  {
  }

  // ---- The channels ----

  ghost predicate WithinRoom(c: Config, s: State) {
    && s.jobs.cap == 2 * c.workers && |s.jobs.buf| <= 2 * c.workers
    && s.results.cap == 2 * c.workers && |s.results.buf| <= 2 * c.workers
    && 0 <= |s.events.sent| - s.events.read <= 256
  }

  lemma EmitWithin(log: EventLog, ev: Event)
    requires CanEmit(log) && 0 <= |log.sent| - log.read <= 256
    ensures 0 <= |Emit(log, ev).sent| - Emit(log, ev).read <= 256
  {
  }

  lemma SendWithin(ch: Channel, i: nat, room: nat)
    requires CanSend(ch) && ch.cap == room && |ch.buf| <= room
    ensures Send(ch, i).cap == room && |Send(ch, i).buf| <= room
  {
  }

  lemma MainWithin(c: Config, s: State, giveUp: bool)
    requires WithinRoom(c, s) && MainEnabled(c, s, giveUp)
    ensures WithinRoom(c, MainStep(c, s, giveUp))
  {
    hide Emit, CanEmit, Shaped;
    match s.main
    case SendTotal => EmitWithin(s.events, Status.Total(|c.jobs|));
    case SendRunning => EmitWithin(s.events, Status.Phase("running"));
    case SendPhase(phase) => EmitWithin(s.events, Status.Phase(phase));
    case _ =>
  }

  lemma ProducerWithin(c: Config, s: State, giveUp: bool)
    requires Shaped(c, s) && WithinRoom(c, s) && ProducerEnabled(c, s, giveUp)
    ensures WithinRoom(c, ProducerStep(c, s, giveUp))
  {
    hide Emit, CanEmit, Send, CanSend, ShouldSkip;
    match s.producer
    case SendCheckErr(i) => EmitWithin(s.events, Status.ItemFailed(Base(c, i), "skip-check: " + Text(c.jobs[i].checkErr)));
    case SendSkip(i) => EmitWithin(s.events, Status.Skip(Base(c, i)));
    case Offer(i) =>
      if !giveUp {
        SendWithin(s.jobs, i, 2 * c.workers);
      }
    case _ =>
  }

  lemma WorkerWithin(c: Config, s: State, k: nat, giveUp: bool)
    requires Shaped(c, s) && WithinRoom(c, s) && WorkerEnabled(c, s, k, giveUp) && k < |s.workers|
    ensures WithinRoom(c, WorkerStep(c, s, k, giveUp))
  {
    hide Emit, CanEmit, Send, CanSend, ThumbPath;
    match s.workers[k]
    case Started(i) => EmitWithin(s.events, Status.WorkerStart(k, Base(c, i)));
    case SendFail(i) => EmitWithin(s.events, Status.ItemFailed(Base(c, i), Text(c.jobs[i].procErr)));
    case SendIdle => EmitWithin(s.events, Status.WorkerIdle(k));
    case SendResult(i) => SendWithin(s.results, i, 2 * c.workers);
    case _ =>
  }

  lemma WriterWithin(c: Config, s: State)
    requires Shaped(c, s) && WithinRoom(c, s) && WriterEnabled(c, s)
    ensures WithinRoom(c, WriterStep(c, s))
  {
    hide Emit, CanEmit, Upsert;
    if s.writer.WSend? {
      var i := s.writer.i;
      EmitWithin(s.events, if s.writer.ok then Status.ItemDone(Base(c, i), 0) else Status.ItemFailed(Base(c, i), "store: " + Text(c.jobs[i].storeErr)));
    }
  }

  lemma StatusWithin(c: Config, s: State)
    requires WithinRoom(c, s) && StatusEnabled(s)
    ensures WithinRoom(c, StatusStep(s))
  {
  }

  lemma StepWithin(c: Config, s: State, a: Action)
    requires WithinRoom(c, s) && Enabled(c, s, a)
    ensures WithinRoom(c, Step(c, s, a))
  {
    hide MainStep, ProducerStep, WorkerStep, WriterStep, StatusStep, MainEnabled, ProducerEnabled, WorkerEnabled, WriterEnabled, StatusEnabled, Shaped;
    match a
    case Main(giveUp) => MainWithin(c, s, giveUp);
    case Producer(giveUp) => ProducerWithin(c, s, giveUp);
    case Worker(k, giveUp) =>
      WorkerIs(c, s, k, giveUp);
      WorkerWithin(c, s, k, giveUp);
    case Writer => WriterWithin(c, s);
    case StatusLoop => StatusWithin(c, s);
    case Cancel =>
  }

  /** No queue ever holds more than its room, two photos a worker on either side and
      256 events; and a sender waits exactly when there is none left. */
  lemma {:induction false} RoomOf(c: Config, states: seq<State>, actions: seq<Action>, n: nat)
    requires Valid(c) && IsRun(c, states, actions) && n < |states|
    ensures WithinRoom(c, states[n])
    ensures var s := states[n];
      && (!s.events.closed ==> (CanEmit(s.events) <==> |s.events.sent| - s.events.read < 256))
      && (!s.jobs.closed ==> (CanSend(s.jobs) <==> |s.jobs.buf| < 2 * c.workers))
      && (!s.results.closed ==> (CanSend(s.results) <==> |s.results.buf| < 2 * c.workers))
  {
    hide Valid, Enabled, Step;
    if n > 0 {
      RoomOf(c, states, actions, n - 1);
      StepWithin(c, states[n - 1], actions[n - 1]);
    }
  }
}
