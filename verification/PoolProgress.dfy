/** The pool always finishes: no reachable state is stuck, and every step,
    a cancellation included, uses up part of a finite measure. */
module PoolProgress {
  import opened Wrappers
  import opened CatalogStore
  import Status
  import opened Pool
  import opened PoolInvariant

  // ---- No deadlock ----

  /** With the events channel drained, a worker that is not done can move, or
      whatever it waits for can. */
  lemma WorkerCanMove(c: Config, s: State, k: nat) returns (a: Action)
    requires Valid(c) && Control(c, s) && s.spawned && s.main.WaitWorkers? && Queued(s.events) == 0
    requires k < |s.workers| && !s.workers[k].WExit?
    ensures Enabled(c, s, a) && !a.Cancel?
  {
    if WorkerEnabled(c, s, k, false) {
      return Worker(k, false);
    }
    if s.workers[k].SendResult? {
      assert !s.writer.WrExit?;
      return Writer;
    }
    assert s.workers[k].Idle? && s.jobs.buf == [] && !s.jobs.closed;
    return Producer(false);
  }

  /** Some step other than a cancellation is possible until the run returns. */
  lemma NeverStuck(c: Config, s: State) returns (a: Action)
    requires Valid(c) && Control(c, s) && s.running
    ensures Enabled(c, s, a) && !a.Cancel?
  {
    if StatusEnabled(s) {
      return StatusLoop;
    }
    if s.main.WaitWorkers? && exists k :: 0 <= k < |s.workers| && !s.workers[k].WExit? {
      var k :| 0 <= k < |s.workers| && !s.workers[k].WExit?;
      a := WorkerCanMove(c, s, k);
    } else if s.main.WaitWriter? && !s.writer.WrExit? {
      return Writer;
    } else if s.main.WaitProducer? && !s.producer.PExit? {
      if s.producer.Offer? {
        assert s.workers[0].WExit?;
        return Producer(s.cancelled);
      }
      return Producer(false);
    } else {
      return Main(false);
    }
  }

  // ---- A finite measure ----

  function StageWeight(st: Stage): nat {
    match st
    case Unseen => 13
    case AtProducer => 13
    case InJobs => 11
    case AtWorker(_) => 4
    case Rendered(_) => 4
    case InResults => 4
    case _ => 0
  }

  function WorkerWeight(pc: WorkerPc): nat {
    match pc
    case Idle => 3
    case Got(_) => 9
    case Started(_) => 8
    case Working(_) => 6
    case SendFail(_) => 5
    case SendResult(_) => 5
    case SendIdle => 2
    case WExit => 0
  }

  function ProducerWeight(pc: ProducerPc): nat {
    match pc
    case Top(_) => 4
    case CloseJobs => 2
    case SignalDone => 1
    case PExit => 0
    case _ => 3
  }

  function WriterWeight(pc: WriterPc): nat {
    match pc
    case WIdle => 2
    case WGot(_) => 5
    case WSend(_, _) => 4
    case WrExit => 0
  }

  function Photos(stage: seq<Stage>): nat {
    if stage == [] then 0 else Photos(stage[..|stage| - 1]) + StageWeight(stage[|stage| - 1])
  }

  function Crew(workers: seq<WorkerPc>): nat {
    if workers == [] then 0 else Crew(workers[..|workers| - 1]) + WorkerWeight(workers[|workers| - 1])
  }

  lemma {:induction false} PhotosUpdate(stage: seq<Stage>, i: nat, to: Stage)
    requires i < |stage|
    ensures Photos(stage[i := to]) == Photos(stage) - StageWeight(stage[i]) + StageWeight(to)
  {
    var after := stage[i := to];
    var n := |stage| - 1;
    if i == n {
      assert after[..n] == stage[..n];
    } else {
      assert after[..n] == stage[..n][i := to];
      PhotosUpdate(stage[..n], i, to);
    }
  }

  lemma {:induction false} CrewUpdate(workers: seq<WorkerPc>, k: nat, pc: WorkerPc)
    requires k < |workers|
    ensures Crew(workers[k := pc]) == Crew(workers) - WorkerWeight(workers[k]) + WorkerWeight(pc)
  {
    var after := workers[k := pc];
    var n := |workers| - 1;
    if k == n {
      assert after[..n] == workers[..n];
    } else {
      assert after[..n] == workers[..n][k := pc];
      CrewUpdate(workers[..n], k, pc);
    }
  }

  function Measure(s: State): int {
    Photos(s.stage) + Crew(s.workers) + ProducerWeight(s.producer) + WriterWeight(s.writer) + 2 * (11 - Rank(s.main))
    + Queued(s.events) + (if s.statusDone then 0 else 1) + (if s.cancelled then 0 else 1)
  }

  lemma EmitQueues(log: EventLog, ev: Event)
    ensures Queued(Emit(log, ev)) <= Queued(log) + 1
  {
  }

  lemma CloseQueues(log: EventLog)
    ensures Queued(log.(closed := true)) == Queued(log.(broken := true)) == Queued(log)
  {
  }

  lemma MainDescends(c: Config, s: State, giveUp: bool)
    requires MainEnabled(c, s, giveUp)
    ensures Measure(MainStep(c, s, giveUp)) < Measure(s)
  {
    hide Photos, Crew, CanEmit, Queued, Emit;
    match s.main
    case SendTotal => EmitQueues(s.events, Status.Total(|c.jobs|));
    case SendRunning => EmitQueues(s.events, Status.Phase("running"));
    case SendPhase(phase) => EmitQueues(s.events, Status.Phase(phase));
    case CloseEvents => CloseQueues(s.events);
    case _ =>
  }

  lemma ProducerDescends(c: Config, s: State, giveUp: bool)
    requires Control(c, s) && Places(c, s) && ProducerEnabled(c, s, giveUp)
    ensures Measure(ProducerStep(c, s, giveUp)) < Measure(s)
  {
    hide WorkerPlaces, WriterPlaces, QueueIs, ShouldSkip, Base, Text, Photos, Crew;
    var t := ProducerStep(c, s, giveUp);
    var i := if s.producer.Top? then s.producer.next else Offering(s.producer);
    if 0 <= i < |c.jobs| {
      PhotosUpdate(s.stage, i, t.stage[i]);
      assert t.stage == s.stage[i := t.stage[i]];
    }
  }

  /** The photo a worker has or is about to take is where it should be. */
  ghost predicate WorkerHand(s: State, k: nat) {
    && k < |s.workers|
    && (s.jobs.buf != [] ==> s.jobs.buf[0] < |s.stage| && s.stage[s.jobs.buf[0]].InJobs?)
    && (Holds(s.workers[k]) >= 0 ==> Holds(s.workers[k]) < |s.stage| && s.stage[Holds(s.workers[k])] == WorkerStage(s.workers[k], k))
  }

  lemma PlacesHand(c: Config, s: State, k: nat)
    requires Control(c, s) && Places(c, s) && k < |s.workers|
    ensures Shaped(c, s) && WorkerHand(s, k)
  {
  }

  lemma WorkerTakeDescends(c: Config, s: State, k: nat, giveUp: bool)
    requires Shaped(c, s) && WorkerHand(s, k) && WorkerEnabled(c, s, k, giveUp) && (s.workers[k].Idle? && s.jobs.buf != [])
    ensures Measure(WorkerStep(c, s, k, giveUp)) < Measure(s)
  {
    hide ThumbPath, Photos, Crew, CanEmit, CanSend, Base, Text, Emit;
    var t := WorkerStep(c, s, k, giveUp);
    CrewUpdate(s.workers, k, t.workers[k]);
    var i := s.jobs.buf[0];
    PhotosUpdate(s.stage, i, t.stage[i]);
    assert t.stage == s.stage[i := t.stage[i]];
  }

  lemma WorkerHeldDescends(c: Config, s: State, k: nat, giveUp: bool)
    requires Shaped(c, s) && WorkerHand(s, k) && WorkerEnabled(c, s, k, giveUp) && (s.workers[k].Got? || s.workers[k].Started? || s.workers[k].Working?)
    ensures Measure(WorkerStep(c, s, k, giveUp)) < Measure(s)
  {
    hide ThumbPath, Photos, Crew, CanEmit, CanSend, Base, Text;
    var t := WorkerStep(c, s, k, giveUp);
    CrewUpdate(s.workers, k, t.workers[k]);
    var i := Holds(s.workers[k]);
    PhotosUpdate(s.stage, i, t.stage[i]);
    assert t.stage == s.stage[i := t.stage[i]];
  }

  lemma WorkerSendDescends(c: Config, s: State, k: nat, giveUp: bool)
    requires Shaped(c, s) && WorkerHand(s, k) && WorkerEnabled(c, s, k, giveUp) && (s.workers[k].SendFail? || s.workers[k].SendResult?)
    ensures Measure(WorkerStep(c, s, k, giveUp)) < Measure(s)
  {
    hide ThumbPath, Photos, Crew, CanEmit, CanSend, Base, Text;
    var t := WorkerStep(c, s, k, giveUp);
    CrewUpdate(s.workers, k, t.workers[k]);
    var i := Holds(s.workers[k]);
    PhotosUpdate(s.stage, i, t.stage[i]);
    assert t.stage == s.stage[i := t.stage[i]];
  }

  lemma WorkerEndDescends(c: Config, s: State, k: nat)
    requires Shaped(c, s) && k < |s.workers| && (s.workers[k].SendIdle? || (s.workers[k].Idle? && s.jobs.buf == []))
    ensures Measure(WorkerStep(c, s, k, false)) < Measure(s)
  {
    hide Photos, Crew;
    CrewUpdate(s.workers, k, WorkerStep(c, s, k, false).workers[k]);
  }

  lemma WorkerDescends(c: Config, s: State, k: nat, giveUp: bool)
    requires Shaped(c, s) && WorkerHand(s, k) && WorkerEnabled(c, s, k, giveUp)
    ensures Measure(WorkerStep(c, s, k, giveUp)) < Measure(s)
  {
    hide Measure, WorkerStep, WorkerHand, Shaped;
    match s.workers[k]
    case Idle =>
      if s.jobs.buf != [] {
        WorkerTakeDescends(c, s, k, giveUp);
      } else {
        WorkerEndDescends(c, s, k);
      }
    case SendIdle => WorkerEndDescends(c, s, k);
    case SendFail(_) => WorkerSendDescends(c, s, k, giveUp);
    case SendResult(_) => WorkerSendDescends(c, s, k, giveUp);
    case WExit =>
    case _ => WorkerHeldDescends(c, s, k, giveUp);
  }

  lemma WriterDescends(c: Config, s: State)
    requires Control(c, s) && Places(c, s) && WriterEnabled(c, s)
    ensures Measure(WriterStep(c, s)) < Measure(s)
  {
    hide ProducerPlaces, WorkerPlaces, ShouldSkip, Base, Text, Upsert, Photos, Crew;
    var t := WriterStep(c, s);
    var i := if s.writer.WIdle? && s.results.buf != [] then s.results.buf[0] else Writing(s.writer);
    if i >= 0 {
      PhotosUpdate(s.stage, i, t.stage[i]);
      assert t.stage == s.stage[i := t.stage[i]];
    }
  }

  lemma MeasureNat(c: Config, s: State)
    requires Control(c, s)
    ensures 0 <= Measure(s)
  {
  }

  /** Every step of a run, the cancellation included, uses up the measure. */
  lemma Descends(c: Config, s: State, a: Action)
    requires Control(c, s) && Places(c, s) && Enabled(c, s, a)
    ensures 0 <= Measure(Step(c, s, a)) < Measure(s)
  {
    hide Control, Places, Photos, Crew, MainStep, ProducerStep, WorkerStep, WriterStep, MainEnabled, ProducerEnabled, WriterEnabled, Shaped;
    ControlKept(c, s, a);
    MeasureNat(c, Step(c, s, a));
    match a
    case Main(giveUp) => MainDescends(c, s, giveUp);
    case Producer(giveUp) => ProducerDescends(c, s, giveUp);
    case Worker(k, giveUp) =>
      PlacesHand(c, s, k);
      WorkerDescends(c, s, k, giveUp);
    case Writer => WriterDescends(c, s);
    case _ =>
  }

  lemma {:induction false} PhotosAtStart(n: nat)
    ensures Photos(seq(n, _ => Unseen)) == 13 * n
  {
    if n > 0 {
      assert seq(n, _ => Unseen)[..n - 1] == seq(n - 1, _ => Unseen);
      PhotosAtStart(n - 1);
    }
  }

  lemma {:induction false} CrewAtStart(n: nat)
    ensures Crew(seq(n, _ => Idle)) == 3 * n
  {
    if n > 0 {
      assert seq(n, _ => Idle)[..n - 1] == seq(n - 1, _ => Idle);
      CrewAtStart(n - 1);
    }
  }
}
