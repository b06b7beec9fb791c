/** The concurrent scan of worker/coordinator.go as a step system: the run
    goroutine, one producer, n workers, one writer and one status goroutine,
    joined by three bounded channels, with a cancellation that may come at any
    moment.

    A channel operation that the language runtime punishes (a send on a closed
    channel, a second close) is a step like any other: it leaves the channel
    `broken`, and nothing runs after that. */
module Pool {
  import opened Wrappers
  import opened CatalogStore
  import Status
  import ScanLoop

  type Event = Status.Event
  type Job = ScanLoop.Job

  const EVENTS_CAP := 256

  /** What a run is given: the listed photos after the limit (or a failed
      listing), the pool size, and the catalog left by reconciliation. */
  datatype Config = Config(jobs: seq<Job>, workers: nat, force: bool, listErr: Option<string>, table: Table, thumbs: set<string>)

  datatype Channel = Channel(buf: seq<nat>, cap: nat, closed: bool, broken: bool)

  /** The events channel with its past: `sent` holds every event sent so far, and
      the first `read` of them have left the channel for the snapshot. */
  datatype EventLog = EventLog(sent: seq<Event>, read: nat, closed: bool, broken: bool)

  datatype MainPc =
    | Listing | SendTotal | SendRunning
    | WaitWorkers | CloseResults | WaitWriter | WaitProducer
    | SendPhase(phase: string) | CloseEvents | WaitStatus | Finish | Returned

  datatype ProducerPc = Top(next: nat) | SendCheckErr(i: nat) | SendSkip(i: nat) | Offer(i: nat) | CloseJobs | SignalDone | PExit

  datatype WorkerPc = Idle | Got(i: nat) | Started(i: nat) | Working(i: nat) | SendFail(i: nat) | SendResult(i: nat) | SendIdle | WExit

  datatype WriterPc = WIdle | WGot(i: nat) | WSend(i: nat, ok: bool) | WrExit

  datatype Outcome = CheckFailed | Skipped | ProcFailed | StoreFailed | Done

  /** Where a photo is: an auxiliary variable, read by no step. */
  datatype Stage =
    | Unseen | AtProducer | InJobs | AtWorker(k: nat) | Rendered(k: nat) | InResults | AtWriter | Stored(ok: bool)
    | Reported(outcome: Outcome) | Dropped

  datatype State = State(
    running: bool, cancelled: bool, spawned: bool,
    main: MainPc, producer: ProducerPc, workers: seq<WorkerPc>, writer: WriterPc, statusDone: bool,
    jobs: Channel, results: Channel, events: EventLog,
    table: Table, thumbs: set<string>, stage: seq<Stage>)

  datatype Action =
    | Cancel
    | Main(giveUp: bool)
    | Producer(giveUp: bool)
    | Worker(k: nat, giveUp: bool)
    | Writer
    | StatusLoop

  /** A pool size as `Start` computes it, and photos keyed by distinct bases. */
  ghost predicate Valid(c: Config) {
    && 1 <= c.workers <= 32
    && forall i, j :: 0 <= i < j < |c.jobs| ==> c.jobs[i].photo.keyBase != c.jobs[j].photo.keyBase
  }

  function Base(c: Config, i: nat): string
    requires i < |c.jobs|
  {
    c.jobs[i].photo.keyBase
  }

  function Init(c: Config): State {
    State(true, false, false,
          Listing, Top(0), seq(c.workers, _ => Idle), WIdle, false,
          Channel([], c.workers * 2, false, false), Channel([], c.workers * 2, false, false), EventLog([], 0, false, false),
          c.table, c.thumbs, seq(|c.jobs|, _ => Unseen))
  }

  /** Every index in the state names a photo of the run. */
  ghost predicate Shaped(c: Config, s: State) {
    && |s.stage| == |c.jobs| && |s.workers| == c.workers && s.events.read <= |s.events.sent|
    && (forall k :: 0 <= k < |s.jobs.buf| ==> s.jobs.buf[k] < |c.jobs|)
    && (forall k :: 0 <= k < |s.results.buf| ==> s.results.buf[k] < |c.jobs|)
    && (match s.producer
        case Top(i) => i <= |c.jobs|
        case SendCheckErr(i) => i < |c.jobs|
        case SendSkip(i) => i < |c.jobs|
        case Offer(i) => i < |c.jobs|
        case _ => true)
    && (forall k :: 0 <= k < |s.workers| ==> Holds(s.workers[k]) < |c.jobs|)
    && (match s.writer
        case WGot(i) => i < |c.jobs|
        case WSend(i, _) => i < |c.jobs|
        case _ => true)
  }

  /** The photo a worker has in hand, or -1. */
  function Holds(pc: WorkerPc): int {
    match pc
    case Got(i) => i
    case Started(i) => i
    case Working(i) => i
    case SendFail(i) => i
    case SendResult(i) => i
    case _ => -1
  }

  // ---- Channels ----

  function Queued(log: EventLog): int {
    |log.sent| - log.read
  }

  predicate CanEmit(log: EventLog) {
    log.closed || Queued(log) < EVENTS_CAP
  }

  function Emit(log: EventLog, ev: Event): EventLog {
    if log.closed then log.(broken := true) else log.(sent := log.sent + [ev])
  }

  predicate CanSend(ch: Channel) {
    ch.closed || |ch.buf| < ch.cap
  }

  function Send(ch: Channel, i: nat): Channel {
    if ch.closed then ch.(broken := true) else ch.(buf := ch.buf + [i])
  }

  function Close(ch: Channel): Channel {
    if ch.closed then ch.(broken := true) else ch.(closed := true)
  }

  predicate CanReceive(ch: Channel) {
    ch.closed || ch.buf != []
  }

  predicate Panicked(s: State) {
    s.jobs.broken || s.results.broken || s.events.broken
  }

  // ---- The run goroutine ----

  predicate MainEnabled(c: Config, s: State, giveUp: bool) {
    match s.main
    case Listing => giveUp ==> s.cancelled
    case SendTotal | SendRunning | SendPhase(_) => !giveUp && CanEmit(s.events)
    case WaitWorkers => !giveUp && forall k :: 0 <= k < |s.workers| ==> s.workers[k].WExit?
    case WaitWriter => !giveUp && s.writer.WrExit?
    case WaitProducer => !giveUp && s.producer.PExit?
    case WaitStatus => !giveUp && s.statusDone
    case CloseResults | CloseEvents | Finish => !giveUp
    case Returned => false
  }

  /** A listing may be aborted by the cancellation, or fail by itself. */
  function MainStep(c: Config, s: State, giveUp: bool): State {
    match s.main
    case Listing =>
      if giveUp || c.listErr.Some? then s.(main := SendPhase(if s.cancelled then "cancelled" else "error"))
      else s.(main := SendTotal)
    case SendTotal => s.(main := SendRunning, events := Emit(s.events, Status.Total(|c.jobs|)))
    case SendRunning => s.(main := WaitWorkers, spawned := true, events := Emit(s.events, Status.Phase("running")))
    case WaitWorkers => s.(main := CloseResults)
    case CloseResults =>
      s.(main := WaitWriter, results := Close(s.results))
    case WaitWriter => s.(main := WaitProducer)
    case WaitProducer => s.(main := SendPhase(if s.cancelled then "cancelled" else "done"))
    case SendPhase(phase) => s.(main := CloseEvents, events := Emit(s.events, Status.Phase(phase)))
    case CloseEvents =>
      s.(main := WaitStatus, events := if s.events.closed then s.events.(broken := true) else s.events.(closed := true))
    case WaitStatus => s.(main := Finish)
    case Finish => s.(main := Returned, running := false)
    case Returned => s
  }

  // ---- The producer ----

  predicate ProducerEnabled(c: Config, s: State, giveUp: bool) {
    s.spawned &&
    match s.producer
    case Top(_) | CloseJobs | SignalDone => !giveUp
    case SendCheckErr(_) | SendSkip(_) => !giveUp && CanEmit(s.events)
    case Offer(_) => if giveUp then s.cancelled else CanSend(s.jobs)
    case PExit => false
  }

  function ProducerStep(c: Config, s: State, giveUp: bool): State
    requires Shaped(c, s)
  {
    match s.producer
    case Top(i) =>
      if i >= |c.jobs| || s.cancelled then s.(producer := CloseJobs)
      else if c.jobs[i].checkErr.Some? && !c.force then s.(producer := SendCheckErr(i), stage := s.stage[i := AtProducer])
      else if ShouldSkip(s.table, s.thumbs, c.jobs[i].photo, c.force) then s.(producer := SendSkip(i), stage := s.stage[i := AtProducer])
      else s.(producer := Offer(i), stage := s.stage[i := AtProducer])
    case SendCheckErr(i) =>
      s.(producer := Top(i + 1), stage := s.stage[i := Reported(CheckFailed)],
         events := Emit(s.events, Status.ItemFailed(Base(c, i), "skip-check: " + Text(c.jobs[i].checkErr))))
    case SendSkip(i) =>
      s.(producer := Top(i + 1), stage := s.stage[i := Reported(Skipped)],
         events := Emit(s.events, Status.Skip(Base(c, i))))
    case Offer(i) =>
      if giveUp then s.(producer := CloseJobs, stage := s.stage[i := Dropped])
      else s.(producer := Top(i + 1), jobs := Send(s.jobs, i), stage := s.stage[i := InJobs])
    case CloseJobs =>
      s.(producer := SignalDone, jobs := Close(s.jobs))
    case SignalDone => s.(producer := PExit)
    case PExit => s
  }

  function Text(e: Option<string>): string {
    if e.Some? then e.value else ""
  }

  // ---- Worker k ----

  predicate WorkerEnabled(c: Config, s: State, k: nat, giveUp: bool) {
    s.spawned && k < |s.workers| &&
    match s.workers[k]
    case Idle => !giveUp && CanReceive(s.jobs)
    case Got(_) => !giveUp
    case Started(_) | SendFail(_) | SendIdle => !giveUp && CanEmit(s.events)
    case Working(_) => giveUp ==> s.cancelled
    case SendResult(_) => !giveUp && CanSend(s.results)
    case WExit => false
  }

  /** An aborted fetch is an error like any other; after an error the worker
      looks at the context before it counts the photo. */
  function WorkerStep(c: Config, s: State, k: nat, giveUp: bool): State
    requires Shaped(c, s) && k < |s.workers|
  {
    match s.workers[k]
    case Idle =>
      if s.jobs.buf == [] then s.(workers := s.workers[k := SendIdle])
      else
        var i := s.jobs.buf[0];
        s.(workers := s.workers[k := Got(i)], jobs := s.jobs.(buf := s.jobs.buf[1..]), stage := s.stage[i := AtWorker(k)])
    case Got(i) =>
      if s.cancelled then s.(workers := s.workers[k := SendIdle], stage := s.stage[i := Dropped])
      else s.(workers := s.workers[k := Started(i)])
    case Started(i) =>
      s.(workers := s.workers[k := Working(i)], events := Emit(s.events, Status.WorkerStart(k, Base(c, i))))
    case Working(i) =>
      if giveUp || c.jobs[i].procErr.Some? then
        if s.cancelled then s.(workers := s.workers[k := SendIdle], stage := s.stage[i := Dropped])
        else s.(workers := s.workers[k := SendFail(i)])
      else
        s.(workers := s.workers[k := SendResult(i)], thumbs := s.thumbs + {ThumbPath(Base(c, i))},
           stage := s.stage[i := Rendered(k)])
    case SendFail(i) =>
      s.(workers := s.workers[k := Idle], stage := s.stage[i := Reported(ProcFailed)],
         events := Emit(s.events, Status.ItemFailed(Base(c, i), Text(c.jobs[i].procErr))))
    case SendResult(i) =>
      s.(workers := s.workers[k := Idle], results := Send(s.results, i), stage := s.stage[i := InResults])
    case SendIdle =>
      s.(workers := s.workers[k := WExit], events := Emit(s.events, Status.WorkerIdle(k)))
    case WExit => s
  }

  // ---- The writer ----

  predicate WriterEnabled(c: Config, s: State) {
    s.spawned &&
    match s.writer
    case WIdle => CanReceive(s.results)
    case WGot(_) => true
    case WSend(_, _) => CanEmit(s.events)
    case WrExit => false
  }

  function WriterStep(c: Config, s: State): State
    requires Shaped(c, s)
  {
    match s.writer
    case WIdle =>
      if s.results.buf == [] then s.(writer := WrExit)
      else
        var i := s.results.buf[0];
        s.(writer := WGot(i), results := s.results.(buf := s.results.buf[1..]), stage := s.stage[i := AtWriter])
    case WGot(i) =>
      if c.jobs[i].storeErr.Some? then s.(writer := WSend(i, false), stage := s.stage[i := Stored(false)])
      else s.(writer := WSend(i, true), table := Upsert(s.table, c.jobs[i].photo, c.jobs[i].meta), stage := s.stage[i := Stored(true)])
    case WSend(i, ok) =>
      s.(writer := WIdle, stage := s.stage[i := Reported(if ok then Done else StoreFailed)],
         events := Emit(s.events, if ok then Status.ItemDone(Base(c, i), 0)
                                  else Status.ItemFailed(Base(c, i), "store: " + Text(c.jobs[i].storeErr))))
    case WrExit => s
  }

  // ---- The status loop ----

  /** A broadcast never blocks (worker/hub.go), so only the channel does. */
  predicate StatusEnabled(s: State) {
    !s.statusDone && (s.events.closed || Queued(s.events) > 0)
  }

  function StatusStep(s: State): State {
    if Queued(s.events) > 0 then s.(events := s.events.(read := s.events.read + 1)) else s.(statusDone := true)
  }

  // ---- The whole system ----

  ghost predicate Enabled(c: Config, s: State, a: Action) {
    Shaped(c, s) && !Panicked(s) &&
    match a
    case Cancel => s.running && !s.cancelled
    case Main(giveUp) => MainEnabled(c, s, giveUp)
    case Producer(giveUp) => ProducerEnabled(c, s, giveUp)
    case Worker(k, giveUp) => WorkerEnabled(c, s, k, giveUp)
    case Writer => WriterEnabled(c, s)
    case StatusLoop => StatusEnabled(s)
  }

  ghost function Step(c: Config, s: State, a: Action): State
    requires Enabled(c, s, a)
  {
    match a
    case Cancel => s.(cancelled := true)
    case Main(giveUp) => MainStep(c, s, giveUp)
    case Producer(giveUp) => ProducerStep(c, s, giveUp)
    case Worker(k, giveUp) => WorkerStep(c, s, k, giveUp)
    case Writer => WriterStep(c, s)
    case StatusLoop => StatusStep(s)
  }

  /** `states` is a run: it starts at the initial state and each state follows
      from the one before by an enabled action. */
  ghost predicate IsRun(c: Config, states: seq<State>, actions: seq<Action>) {
    && |states| == |actions| + 1
    && states[0] == Init(c)
    && forall n :: 0 <= n < |actions| ==> Enabled(c, states[n], actions[n]) && states[n + 1] == Step(c, states[n], actions[n])
  }

  /** The snapshot as the status goroutine has built it so far. */
  function SnapshotOf(c: Config, s: State): Status.Snapshot
    requires s.events.read <= |s.events.sent|
  {
    Status.Replay(StartSnapshot(c), s.events.sent[..s.events.read])
  }

  function StartSnapshot(c: Config): Status.Snapshot {
    Status.Snapshot("listing", 0, 0, 0, 0, 0, 0, seq(c.workers, _ => Status.WorkerSlot(false, "", "")), "", [])
  }
}
