/** What every interleaving of the pool keeps. */
module PoolInvariant {
  import opened CatalogStore
  import opened Pool

  // ---- The shutdown order ----

  function Rank(pc: MainPc): nat {
    match pc
    case Listing => 0
    case SendTotal => 1
    case SendRunning => 2
    case WaitWorkers => 3
    case CloseResults => 4
    case WaitWriter => 5
    case WaitProducer => 6
    case SendPhase(_) => 7
    case CloseEvents => 8
    case WaitStatus => 9
    case Finish => 10
    case Returned => 11
  }

  /** The past-the-loop program points of the producer. */
  predicate Stopped(pc: ProducerPc) {
    pc.CloseJobs? || pc.SignalDone? || pc.PExit?
  }

  ghost predicate Control(c: Config, s: State) {
    && Shaped(c, s)
    && !Panicked(s)
    && (s.running <==> !s.main.Returned?)
    && (s.spawned ==> Rank(s.main) >= 3) && (3 <= Rank(s.main) <= 6 ==> s.spawned)
    && (!s.spawned ==> s.producer == Top(0) && s.writer.WIdle? && (forall k :: 0 <= k < |s.workers| ==> s.workers[k].Idle?))
    && s.jobs.cap == s.results.cap == c.workers * 2
    && (s.jobs.closed <==> s.producer.SignalDone? || s.producer.PExit?)
    && (s.results.closed <==> s.spawned && Rank(s.main) >= 5)
    && (s.events.closed <==> Rank(s.main) >= 9)
    && (s.statusDone ==> s.events.closed && s.events.read == |s.events.sent|)
    && (Rank(s.main) >= 10 ==> s.statusDone)
    && (s.spawned && Rank(s.main) >= 4 ==> forall k :: 0 <= k < |s.workers| ==> s.workers[k].WExit?)
    && (s.spawned && Rank(s.main) >= 6 ==> s.writer.WrExit?)
    && (s.spawned && Rank(s.main) >= 7 ==> s.producer.PExit?)
    && (s.writer.WrExit? ==> s.results.closed && s.results.buf == [])
    && (!s.cancelled ==> forall k :: 0 <= k < |s.workers| ==>
          s.workers[k].SendIdle? || s.workers[k].WExit? ==> s.jobs.closed && s.jobs.buf == [])
  }

  lemma ControlKeptMain(c: Config, s: State, giveUp: bool)
    requires Control(c, s) && MainEnabled(c, s, giveUp)
    ensures Control(c, MainStep(c, s, giveUp))
  {
    hide Holds, Shaped;
    MainStepShaped(c, s, giveUp);
    if Rank(s.main) <= 2 {
      ControlKeptEarly(c, s, giveUp);
    } else {
      ControlKeptLate(c, s, giveUp);
    }
  }

  lemma MainStepShaped(c: Config, s: State, giveUp: bool)
    requires Shaped(c, s)
    ensures Shaped(c, MainStep(c, s, giveUp))
  {
    hide Shaped;
    MainTouches(c, s, giveUp);
    SameShape(c, s, MainStep(c, s, giveUp));
  }

  /** What the shape of a state is about. */
  ghost predicate ShapeAlike(s: State, t: State) {
    && t.stage == s.stage && t.workers == s.workers && t.producer == s.producer && t.writer == s.writer
    && t.jobs.buf == s.jobs.buf && t.results.buf == s.results.buf
    && t.events.read == s.events.read && |t.events.sent| >= |s.events.sent|
  }

  lemma MainTouches(c: Config, s: State, giveUp: bool)
    ensures ShapeAlike(s, MainStep(c, s, giveUp))
  {
    hide MainStep;
    MainMovesNothing(c, s, giveUp);
    MainSends(c, s, giveUp);
  }

  lemma MainSends(c: Config, s: State, giveUp: bool)
    ensures var t := MainStep(c, s, giveUp);
      t.events.read == s.events.read && |t.events.sent| >= |s.events.sent|
  {
    match s.main
    case SendTotal =>
    case SendRunning =>
    case SendPhase(_) =>
    case CloseEvents =>
    case _ => assert MainStep(c, s, giveUp).events == s.events;
  }

  lemma SameShape(c: Config, s: State, t: State)
    requires Shaped(c, s) && ShapeAlike(s, t)
    ensures Shaped(c, t)
  {
    hide Holds;
  }

  lemma ControlKeptEarly(c: Config, s: State, giveUp: bool)
    requires Control(c, s) && MainEnabled(c, s, giveUp) && Rank(s.main) <= 2 && Shaped(c, MainStep(c, s, giveUp))
    ensures Control(c, MainStep(c, s, giveUp))
  {
    hide Shaped;
  }

  lemma ControlKeptLate(c: Config, s: State, giveUp: bool)
    requires Control(c, s) && MainEnabled(c, s, giveUp) && Rank(s.main) > 2 && Shaped(c, MainStep(c, s, giveUp))
    ensures Control(c, MainStep(c, s, giveUp))
  {
    hide Shaped;
  }

  /** The photo the producer has in hand, or -1. */
  function Offering(pc: ProducerPc): int {
    match pc
    case SendCheckErr(i) => i
    case SendSkip(i) => i
    case Offer(i) => i
    case _ => -1
  }

  /** What a step of the producer may change, as far as control goes. */
  ghost predicate ProducerControl(c: Config, s: State, t: State) {
    && t.workers == s.workers && t.main == s.main && t.writer == s.writer && t.results == s.results
    && t.running == s.running && t.cancelled == s.cancelled && t.spawned == s.spawned && !Panicked(t)
    && t.statusDone == s.statusDone && |t.stage| == |s.stage|
    && t.events == s.events.(sent := t.events.sent) && s.events.sent <= t.events.sent
    && t.jobs == s.jobs.(buf := t.jobs.buf, closed := t.jobs.closed)
    && (t.jobs.buf == s.jobs.buf || (!s.jobs.closed && t.jobs.buf == s.jobs.buf + [Offering(s.producer)]))
    && (t.jobs.closed <==> t.producer.SignalDone? || t.producer.PExit?)
    && (s.jobs.closed ==> t.jobs.closed)
    && Offering(t.producer) < |c.jobs| && (t.producer.Top? ==> t.producer.next <= |c.jobs|)
  }

  lemma ProducerSteps(c: Config, s: State, giveUp: bool)
    requires Control(c, s) && Enabled(c, s, Producer(giveUp))
    ensures s.spawned && !s.producer.PExit? && !s.events.closed
    ensures ProducerControl(c, s, Step(c, s, Producer(giveUp)))
  {
    hide ShouldSkip, Base, Text;
    assert Rank(s.main) < 7;
  }

  lemma ControlKeptByProducer(c: Config, s: State, t: State)
    requires Control(c, s) && s.spawned && !s.producer.PExit? && ProducerControl(c, s, t)
    ensures Control(c, t)
  {
    assert forall a :: 0 <= a < |t.jobs.buf| ==> t.jobs.buf[a] < |c.jobs|;
  }

  lemma ControlKeptProducer(c: Config, s: State, giveUp: bool)
    requires Control(c, s) && Enabled(c, s, Producer(giveUp))
    ensures Control(c, Step(c, s, Producer(giveUp)))
  {
    hide Control, Step, Enabled, ProducerControl;
    ProducerSteps(c, s, giveUp);
    ControlKeptByProducer(c, s, Step(c, s, Producer(giveUp)));
  }

  /** What a step of worker k may change, as far as control goes. */
  ghost predicate WorkerFrame(c: Config, s: State, t: State, k: nat) {
    && k < |s.workers| && |t.workers| == |s.workers| && |t.stage| == |s.stage|
    && t.workers == s.workers[k := t.workers[k]] && Holds(t.workers[k]) < |c.jobs|
    && t.main == s.main && t.producer == s.producer && t.writer == s.writer
    && t.running == s.running && t.cancelled == s.cancelled && t.spawned == s.spawned && !Panicked(t)
    && t.statusDone == s.statusDone && t.events == s.events.(sent := t.events.sent) && s.events.sent <= t.events.sent
    && t.jobs == s.jobs.(buf := t.jobs.buf) && (t.jobs.buf == s.jobs.buf || (s.jobs.buf != [] && t.jobs.buf == s.jobs.buf[1..]))
    && t.results == s.results.(buf := t.results.buf)
    && (t.results.buf == s.results.buf || (Holds(s.workers[k]) >= 0 && t.results.buf == s.results.buf + [Holds(s.workers[k])]))
    && (!s.cancelled && t.workers[k].WExit? ==> s.workers[k].SendIdle?)
    && (!s.cancelled && t.workers[k].SendIdle? ==> s.jobs.closed && s.jobs.buf == [])
  }

  lemma WorkerLoops(c: Config, s: State, k: nat, giveUp: bool)
    requires Control(c, s) && WorkerEnabled(c, s, k, giveUp) && (!Busy(s.workers[k]))
    ensures s.spawned && s.main.WaitWorkers? && !s.results.closed && !s.events.closed
    ensures WorkerFrame(c, s, WorkerStep(c, s, k, giveUp), k)
  {
    hide Base, Text, ThumbPath, CanEmit, CanSend;
    assert !s.workers[k].WExit? && Rank(s.main) == 3;
  }

  lemma WorkerBusySteps(c: Config, s: State, k: nat, giveUp: bool)
    requires Control(c, s) && WorkerEnabled(c, s, k, giveUp) && (Busy(s.workers[k]))
    ensures s.spawned && s.main.WaitWorkers? && !s.results.closed && !s.events.closed
    ensures WorkerFrame(c, s, WorkerStep(c, s, k, giveUp), k)
  {
    hide Base, Text, ThumbPath, CanEmit, CanSend;
    assert !s.workers[k].WExit? && Rank(s.main) == 3;
  }

  /** Between the check of the context and the hand-over. */
  predicate Busy(pc: WorkerPc) {
    pc.Started? || pc.Working? || pc.SendFail? || pc.SendResult?
  }

  lemma ControlKeptByFrame(c: Config, s: State, t: State, k: nat)
    requires Control(c, s) && s.spawned && s.main.WaitWorkers? && WorkerFrame(c, s, t, k)
    ensures Control(c, t)
  {
    assert forall j :: 0 <= j < |s.workers| && j != k ==> t.workers[j] == s.workers[j];
  }

  lemma ControlKeptWorker(c: Config, s: State, k: nat, giveUp: bool)
    requires Control(c, s) && Enabled(c, s, Worker(k, giveUp))
    ensures Control(c, Step(c, s, Worker(k, giveUp)))
  {
    hide Control, WorkerStep, WorkerFrame;
    if Busy(s.workers[k]) {
      WorkerBusySteps(c, s, k, giveUp);
    } else {
      WorkerLoops(c, s, k, giveUp);
    }
    ControlKeptByFrame(c, s, Step(c, s, Worker(k, giveUp)), k);
  }

  lemma ControlKeptWriter(c: Config, s: State)
    requires Control(c, s) && WriterEnabled(c, s)
    ensures Control(c, WriterStep(c, s))
  {
    hide Upsert, Base, Text, Holds;
    assert !s.writer.WrExit? && Rank(s.main) < 6;
  }

  lemma ControlKept(c: Config, s: State, a: Action)
    requires Control(c, s) && Enabled(c, s, a)
    ensures Control(c, Step(c, s, a))
  {
    match a
    case Cancel =>
    case Main(giveUp) => ControlKeptMain(c, s, giveUp);
    case Producer(giveUp) => ControlKeptProducer(c, s, giveUp);
    case Worker(k, giveUp) => ControlKeptWorker(c, s, k, giveUp);
    case Writer => ControlKeptWriter(c, s);
    case StatusLoop =>
  }

  // ---- Where every photo is ----

  ghost predicate NoRepeat(q: seq<nat>) {
    forall a, b :: 0 <= a < b < |q| ==> q[a] != q[b]
  }

  /** A queue holds exactly the photos of one stage, each once. */
  ghost predicate QueueIs(q: seq<nat>, stage: seq<Stage>, st: Stage) {
    && NoRepeat(q)
    && (forall a :: 0 <= a < |q| ==> q[a] < |stage| && stage[q[a]] == st)
    && (forall i :: 0 <= i < |stage| && stage[i] == st ==> i in q)
  }

  /** The photo the writer has in hand, or -1. */
  function Writing(pc: WriterPc): int {
    match pc
    case WGot(i) => i
    case WSend(i, _) => i
    case _ => -1
  }

  function WorkerStage(pc: WorkerPc, k: nat): Stage {
    if pc.SendResult? then Rendered(k) else AtWorker(k)
  }

  function WriterStage(pc: WriterPc): Stage {
    if pc.WSend? then Stored(pc.ok) else AtWriter
  }

  ghost predicate ProducerPlaces(producer: ProducerPc, cancelled: bool, stage: seq<Stage>) {
    && (Offering(producer) >= 0 ==> Offering(producer) < |stage| && stage[Offering(producer)] == AtProducer)
    && (forall i :: 0 <= i < |stage| && stage[i].AtProducer? ==> i == Offering(producer))
    && (producer.Top? ==> forall i :: 0 <= i < |stage| ==> (stage[i].Unseen? <==> i >= producer.next))
    && (Offering(producer) >= 0 ==> forall i :: 0 <= i < |stage| ==> (stage[i].Unseen? <==> i > Offering(producer)))
    && (Stopped(producer) && !cancelled ==> forall i :: 0 <= i < |stage| ==> !stage[i].Unseen?)
    && (!cancelled ==> forall i :: 0 <= i < |stage| ==> !stage[i].Dropped?)
  }

  ghost predicate WorkerPlaces(workers: seq<WorkerPc>, stage: seq<Stage>) {
    && (forall k :: 0 <= k < |workers| && Holds(workers[k]) >= 0 ==>
          Holds(workers[k]) < |stage| && stage[Holds(workers[k])] == WorkerStage(workers[k], k))
    && (forall i :: 0 <= i < |stage| && (stage[i].AtWorker? || stage[i].Rendered?) ==>
          stage[i].k < |workers| && Holds(workers[stage[i].k]) == i)
  }

  ghost predicate WriterPlaces(writer: WriterPc, stage: seq<Stage>) {
    && (Writing(writer) >= 0 ==> Writing(writer) < |stage| && stage[Writing(writer)] == WriterStage(writer))
    && (forall i :: 0 <= i < |stage| && (stage[i].AtWriter? || stage[i].Stored?) ==> i == Writing(writer))
  }

  ghost predicate Places(c: Config, s: State) {
    && |s.stage| == |c.jobs|
    && ProducerPlaces(s.producer, s.cancelled, s.stage)
    && WorkerPlaces(s.workers, s.stage)
    && WriterPlaces(s.writer, s.stage)
    && QueueIs(s.jobs.buf, s.stage, InJobs)
    && QueueIs(s.results.buf, s.stage, InResults)
  }

  lemma QueuePush(q: seq<nat>, stage: seq<Stage>, st: Stage, i: nat)
    requires QueueIs(q, stage, st) && i < |stage| && stage[i] != st
    ensures QueueIs(q + [i], stage[i := st], st)
  {
    var after := stage[i := st];
    forall j | 0 <= j < |after| && after[j] == st
      ensures j in q + [i]
    {
      if j != i {
        assert j in q;
      } else {
        assert (q + [i])[|q|] == i;
      }
    }
  }

  lemma QueuePop(q: seq<nat>, stage: seq<Stage>, st: Stage, to: Stage)
    requires QueueIs(q, stage, st) && q != [] && to != st
    ensures QueueIs(q[1..], stage[q[0] := to], st)
  {
    var after := stage[q[0] := to];
    forall j | 0 <= j < |after| && after[j] == st
      ensures j in q[1..]
    {
      assert j in q && j != q[0];
    }
  }

  /** A queue does not notice a photo that moves between two other stages. */
  lemma QueueFrame(q: seq<nat>, stage: seq<Stage>, st: Stage, i: nat, to: Stage)
    requires QueueIs(q, stage, st) && i < |stage| && stage[i] != st && to != st
    ensures QueueIs(q, stage[i := to], st)
  {
  }

  predicate OfProducer(st: Stage) { st.Unseen? || st.AtProducer? }

  predicate OfWorker(st: Stage) { st.AtWorker? || st.Rendered? }

  predicate OfWriter(st: Stage) { st.AtWriter? || st.Stored? }

  predicate OfQueue(st: Stage) { st.InJobs? || st.InResults? }

  // A photo that moves between stages of other processes goes unnoticed.

  lemma ProducerFrame(producer: ProducerPc, cancelled: bool, stage: seq<Stage>, i: nat, to: Stage)
    requires ProducerPlaces(producer, cancelled, stage)
    requires i < |stage| && !OfProducer(stage[i]) && !OfProducer(to) && (to.Dropped? ==> cancelled)
    ensures ProducerPlaces(producer, cancelled, stage[i := to])
  {
  }

  lemma WorkersFrame(workers: seq<WorkerPc>, stage: seq<Stage>, i: nat, to: Stage)
    requires WorkerPlaces(workers, stage)
    requires i < |stage| && !OfWorker(stage[i]) && !OfWorker(to)
    ensures WorkerPlaces(workers, stage[i := to])
  {
  }

  lemma WriterFrame(writer: WriterPc, stage: seq<Stage>, i: nat, to: Stage)
    requires WriterPlaces(writer, stage)
    requires i < |stage| && !OfWriter(stage[i]) && !OfWriter(to)
    ensures WriterPlaces(writer, stage[i := to])
  {
  }

  /** Worker k takes, keeps or gives away a photo. */
  lemma WorkerMoves(workers: seq<WorkerPc>, stage: seq<Stage>, k: nat, pc: WorkerPc, i: nat, to: Stage)
    requires WorkerPlaces(workers, stage) && k < |workers| && i < |stage|
    requires Holds(workers[k]) == i || (Holds(workers[k]) == -1 && !OfWorker(stage[i]))
    requires if Holds(pc) == i then to == WorkerStage(pc, k) else Holds(pc) == -1 && !OfWorker(to)
    ensures WorkerPlaces(workers[k := pc], stage[i := to])
  {
    var ws, st := workers[k := pc], stage[i := to];
    forall j | 0 <= j < |st| && OfWorker(st[j])
      ensures st[j].k < |ws| && Holds(ws[st[j].k]) == j
    {
    }
  }

  lemma QueuesFrame(s: State, i: nat, to: Stage)
    requires QueueIs(s.jobs.buf, s.stage, InJobs) && QueueIs(s.results.buf, s.stage, InResults)
    requires i < |s.stage| && !OfQueue(s.stage[i]) && !OfQueue(to)
    ensures QueueIs(s.jobs.buf, s.stage[i := to], InJobs) && QueueIs(s.results.buf, s.stage[i := to], InResults)
  {
  }

  /** Photo i moves to stage `to`; nothing else does. */
  ghost predicate Moves(s: State, t: State, i: nat, to: Stage) {
    i < |s.stage| && t.stage == s.stage[i := to] && t.cancelled == s.cancelled
  }

  /** A stage a photo may be given while it is in nobody's hands. */
  predicate Ended(st: Stage, cancelled: bool) {
    st.Reported? || (st.Dropped? && cancelled)
  }

  ghost predicate ProducerMove(s: State, t: State, i: nat, to: Stage) {
    && Moves(s, t, i, to) && t.workers == s.workers && t.writer == s.writer && t.results.buf == s.results.buf
    && OfProducer(s.stage[i])
    && (if to.InJobs? then t.jobs.buf == s.jobs.buf + [i] else t.jobs.buf == s.jobs.buf && (to.AtProducer? || Ended(to, s.cancelled)))
    && ProducerPlaces(t.producer, t.cancelled, t.stage)
  }

  ghost predicate WorkerMove(s: State, t: State, k: nat, i: nat, to: Stage) {
    && Moves(s, t, i, to) && t.producer == s.producer && t.writer == s.writer
    && k < |s.workers| && k < |t.workers| && t.workers == s.workers[k := t.workers[k]]
    && if s.workers[k].Idle? then
         s.jobs.buf != [] && i == s.jobs.buf[0] && t.jobs.buf == s.jobs.buf[1..] && t.results.buf == s.results.buf
         && t.workers[k] == Got(i) && to == AtWorker(k)
       else
         Holds(s.workers[k]) == i && t.jobs.buf == s.jobs.buf
         && if to.InResults? then t.results.buf == s.results.buf + [i] && t.workers[k].Idle?
            else t.results.buf == s.results.buf &&
                 if Holds(t.workers[k]) == i then to == WorkerStage(t.workers[k], k)
                 else Holds(t.workers[k]) == -1 && Ended(to, s.cancelled)
  }

  ghost predicate WriterMove(s: State, t: State, i: nat, to: Stage) {
    && Moves(s, t, i, to) && t.producer == s.producer && t.workers == s.workers && t.jobs.buf == s.jobs.buf
    && if s.writer.WIdle? then
         s.results.buf != [] && i == s.results.buf[0] && t.results.buf == s.results.buf[1..] && t.writer == WGot(i) && to == AtWriter
       else
         Writing(s.writer) == i && t.results.buf == s.results.buf
         && if Writing(t.writer) == i then to == WriterStage(t.writer) else t.writer.WIdle? && to.Reported?
  }

  lemma ProducerTakes(i: nat, pc: ProducerPc, cancelled: bool, stage: seq<Stage>)
    requires ProducerPlaces(Top(i), cancelled, stage) && i < |stage| && Offering(pc) == i
    ensures ProducerPlaces(pc, cancelled, stage[i := AtProducer])
  {
  }

  lemma ProducerGives(pc: ProducerPc, cancelled: bool, stage: seq<Stage>, to: Stage)
    requires ProducerPlaces(pc, cancelled, stage) && Offering(pc) >= 0 && !OfProducer(to) && (to.Dropped? ==> cancelled)
    ensures ProducerPlaces(Top(Offering(pc) + 1), cancelled, stage[Offering(pc) := to])
    ensures cancelled ==> ProducerPlaces(CloseJobs, cancelled, stage[Offering(pc) := to])
  {
  }

  lemma ProducerTopMoves(c: Config, s: State)
    requires |s.stage| == |c.jobs| && ProducerPlaces(s.producer, s.cancelled, s.stage)
    requires s.producer.Top? && s.producer.next < |c.jobs| && !s.cancelled && Enabled(c, s, Producer(false))
    ensures ProducerMove(s, Step(c, s, Producer(false)), s.producer.next, AtProducer)
  {
    ProducerTakes(s.producer.next, Step(c, s, Producer(false)).producer, s.cancelled, s.stage);
  }

  lemma ProducerHas(producer: ProducerPc, cancelled: bool, stage: seq<Stage>)
    requires ProducerPlaces(producer, cancelled, stage) && Offering(producer) >= 0
    ensures Offering(producer) < |stage| && stage[Offering(producer)].AtProducer?
  {
  }

  lemma ProducerGiveMoves(c: Config, s: State, giveUp: bool)
    requires |s.stage| == |c.jobs| && ProducerPlaces(s.producer, s.cancelled, s.stage)
    requires Shaped(c, s) && ProducerEnabled(c, s, giveUp) && Offering(s.producer) >= 0 && !Panicked(ProducerStep(c, s, giveUp))
    ensures var t := ProducerStep(c, s, giveUp);
      var i := Offering(s.producer);
      i < |c.jobs| == |t.stage| && ProducerMove(s, t, i, t.stage[i])
  {
    hide ShouldSkip, Base, Text, CanEmit, CanSend, Emit, ProducerPlaces;
    ProducerHas(s.producer, s.cancelled, s.stage);
    ProducerGives(s.producer, s.cancelled, s.stage, ProducerStep(c, s, giveUp).stage[Offering(s.producer)]);
  }

  lemma ProducerMoveKeeps(s: State, t: State, i: nat, to: Stage)
    requires WorkerPlaces(s.workers, s.stage) && WriterPlaces(s.writer, s.stage)
    requires QueueIs(s.jobs.buf, s.stage, InJobs) && QueueIs(s.results.buf, s.stage, InResults)
    requires ProducerMove(s, t, i, to)
    ensures WorkerPlaces(t.workers, t.stage) && WriterPlaces(t.writer, t.stage)
    ensures QueueIs(t.jobs.buf, t.stage, InJobs) && QueueIs(t.results.buf, t.stage, InResults)
  {
    WorkersFrame(s.workers, s.stage, i, to);
    WriterFrame(s.writer, s.stage, i, to);
    if to.InJobs? {
      QueuePush(s.jobs.buf, s.stage, InJobs, i);
      QueueFrame(s.results.buf, s.stage, InResults, i, to);
    } else {
      QueuesFrame(s, i, to);
    }
  }

  lemma WorkerIdleMoves(c: Config, s: State, k: nat)
    requires Enabled(c, s, Worker(k, false)) && s.workers[k].Idle? && s.jobs.buf != []
    ensures WorkerMove(s, Step(c, s, Worker(k, false)), k, s.jobs.buf[0], AtWorker(k))
    ensures |Step(c, s, Worker(k, false)).stage| == |c.jobs|
  {
  }

  lemma WorkerHas(workers: seq<WorkerPc>, stage: seq<Stage>, k: nat)
    requires WorkerPlaces(workers, stage) && k < |workers| && Holds(workers[k]) >= 0
    ensures Holds(workers[k]) < |stage| && stage[Holds(workers[k])] == WorkerStage(workers[k], k)
  {
  }

  lemma WorkerBusyMoves(c: Config, s: State, k: nat, giveUp: bool)
    requires Shaped(c, s) && WorkerPlaces(s.workers, s.stage) && WorkerEnabled(c, s, k, giveUp)
    requires !Panicked(WorkerStep(c, s, k, giveUp)) && (s.workers[k].Got? || s.workers[k].Started? || s.workers[k].Working?)
    ensures var i := Holds(s.workers[k]);
      i < |c.jobs| == |WorkerStep(c, s, k, giveUp).stage| &&
      WorkerMove(s, WorkerStep(c, s, k, giveUp), k, i, WorkerStep(c, s, k, giveUp).stage[i])
  {
    hide WorkerPlaces, CanEmit, CanSend, Base, Text, ThumbPath, Emit;
    WorkerHas(s.workers, s.stage, k);
    var t := WorkerStep(c, s, k, giveUp);
    var i := Holds(s.workers[k]);
    assert t.stage == s.stage[i := t.stage[i]];
  }

  lemma WorkerSendMoves(c: Config, s: State, k: nat, giveUp: bool)
    requires Shaped(c, s) && WorkerPlaces(s.workers, s.stage) && WorkerEnabled(c, s, k, giveUp)
    requires !Panicked(WorkerStep(c, s, k, giveUp)) && (s.workers[k].SendFail? || s.workers[k].SendResult?)
    ensures var i := Holds(s.workers[k]);
      i < |c.jobs| == |WorkerStep(c, s, k, giveUp).stage| &&
      WorkerMove(s, WorkerStep(c, s, k, giveUp), k, i, WorkerStep(c, s, k, giveUp).stage[i])
  {
    hide WorkerPlaces, CanEmit, CanSend, Base, Text, ThumbPath, Emit;
    WorkerHas(s.workers, s.stage, k);
    var t := WorkerStep(c, s, k, giveUp);
    var i := Holds(s.workers[k]);
    assert t.stage == s.stage[i := t.stage[i]];
  }

  lemma WorkerMoveKeeps(s: State, t: State, k: nat, i: nat, to: Stage)
    requires ProducerPlaces(s.producer, s.cancelled, s.stage) && WorkerPlaces(s.workers, s.stage) && WriterPlaces(s.writer, s.stage)
    requires QueueIs(s.jobs.buf, s.stage, InJobs) && QueueIs(s.results.buf, s.stage, InResults)
    requires WorkerMove(s, t, k, i, to)
    ensures ProducerPlaces(t.producer, t.cancelled, t.stage) && WorkerPlaces(t.workers, t.stage) && WriterPlaces(t.writer, t.stage)
    ensures QueueIs(t.jobs.buf, t.stage, InJobs) && QueueIs(t.results.buf, t.stage, InResults)
  {
    ProducerFrame(s.producer, s.cancelled, s.stage, i, to);
    WriterFrame(s.writer, s.stage, i, to);
    WorkerMoves(s.workers, s.stage, k, t.workers[k], i, to);
    if s.workers[k].Idle? {
      QueuePop(s.jobs.buf, s.stage, InJobs, to);
      QueueFrame(s.results.buf, s.stage, InResults, i, to);
    } else if to.InResults? {
      QueuePush(s.results.buf, s.stage, InResults, i);
      QueueFrame(s.jobs.buf, s.stage, InJobs, i, to);
    } else {
      QueuesFrame(s, i, to);
    }
  }

  lemma WriterIdleMoves(c: Config, s: State)
    requires Enabled(c, s, Writer) && s.writer.WIdle? && s.results.buf != []
    ensures WriterMove(s, Step(c, s, Writer), s.results.buf[0], AtWriter)
  {
  }

  lemma WriterBusyMoves(c: Config, s: State)
    requires Enabled(c, s, Writer) && !Panicked(Step(c, s, Writer)) && Writing(s.writer) >= 0
    ensures WriterMove(s, Step(c, s, Writer), Writing(s.writer), Step(c, s, Writer).stage[Writing(s.writer)])
  {
    hide Emit, CanEmit, Upsert;
  }

  lemma WriterMoveKeeps(s: State, t: State, i: nat, to: Stage)
    requires ProducerPlaces(s.producer, s.cancelled, s.stage) && WorkerPlaces(s.workers, s.stage) && WriterPlaces(s.writer, s.stage)
    requires QueueIs(s.jobs.buf, s.stage, InJobs) && QueueIs(s.results.buf, s.stage, InResults)
    requires WriterMove(s, t, i, to)
    ensures ProducerPlaces(t.producer, t.cancelled, t.stage) && WorkerPlaces(t.workers, t.stage) && WriterPlaces(t.writer, t.stage)
    ensures QueueIs(t.jobs.buf, t.stage, InJobs) && QueueIs(t.results.buf, t.stage, InResults)
  {
    ProducerFrame(s.producer, s.cancelled, s.stage, i, to);
    WorkersFrame(s.workers, s.stage, i, to);
    if s.writer.WIdle? {
      QueuePop(s.results.buf, s.stage, InResults, to);
      QueueFrame(s.jobs.buf, s.stage, InJobs, i, to);
    } else {
      QueuesFrame(s, i, to);
    }
  }

  /** The producer ends its loop, or winds up. */
  lemma ProducerStops(c: Config, s: State)
    requires Shaped(c, s) && ProducerPlaces(s.producer, s.cancelled, s.stage) && |s.stage| == |c.jobs|
    requires Offering(s.producer) < 0 && !(s.producer.Top? && s.producer.next < |c.jobs| && !s.cancelled)
    ensures var t := ProducerStep(c, s, false);
      t.stage == s.stage && t.jobs.buf == s.jobs.buf && t.results == s.results && t.workers == s.workers && t.writer == s.writer
      && ProducerPlaces(t.producer, t.cancelled, t.stage)
  {
  }

  lemma PlacesKeptProducer(c: Config, s: State, giveUp: bool)
    requires Places(c, s) && Enabled(c, s, Producer(giveUp)) && !Panicked(Step(c, s, Producer(giveUp)))
    ensures Places(c, Step(c, s, Producer(giveUp)))
  {
    hide ProducerPlaces, WorkerPlaces, WriterPlaces, QueueIs, ProducerMove, ProducerStep, Shaped, Panicked;
    var t := Step(c, s, Producer(giveUp));
    if s.producer.Top? && s.producer.next < |c.jobs| && !s.cancelled {
      ProducerTopMoves(c, s);
      assert |t.stage| == |s.stage| by { MovesLength(s, t, s.producer.next, AtProducer); }
      ProducerMoveKeeps(s, t, s.producer.next, AtProducer);
    } else if Offering(s.producer) >= 0 {
      ProducerGiveMoves(c, s, giveUp);
      MovesLength(s, t, Offering(s.producer), t.stage[Offering(s.producer)]);
      ProducerMoveKeeps(s, t, Offering(s.producer), t.stage[Offering(s.producer)]);
    } else {
      ProducerStops(c, s);
    }
  }

  lemma MovesLength(s: State, t: State, i: nat, to: Stage)
    requires ProducerMove(s, t, i, to)
    ensures |t.stage| == |s.stage| && ProducerPlaces(t.producer, t.cancelled, t.stage)
  {
  }

  lemma WorkerStops(c: Config, s: State, k: nat)
    requires Shaped(c, s) && WorkerPlaces(s.workers, s.stage) && k < |s.workers|
    requires Holds(s.workers[k]) < 0 && !(s.workers[k].Idle? && s.jobs.buf != [])
    ensures var t := WorkerStep(c, s, k, false);
      t.stage == s.stage && t.jobs == s.jobs && t.results == s.results && t.producer == s.producer && t.writer == s.writer
      && t.cancelled == s.cancelled && WorkerPlaces(t.workers, t.stage)
  {
    hide Emit;
    var t := WorkerStep(c, s, k, false);
    assert Holds(t.workers[k]) == -1 && t.workers == s.workers[k := t.workers[k]];
  }

  lemma PlacesKeptWorker(c: Config, s: State, k: nat, giveUp: bool)
    requires Places(c, s) && Enabled(c, s, Worker(k, giveUp)) && !Panicked(Step(c, s, Worker(k, giveUp)))
    ensures Places(c, Step(c, s, Worker(k, giveUp)))
  {
    hide ProducerPlaces, WorkerPlaces, WriterPlaces, QueueIs, WorkerMove, WorkerStep;
    var t := Step(c, s, Worker(k, giveUp));
    if s.workers[k].Idle? && s.jobs.buf != [] {
      WorkerIdleMoves(c, s, k);
      WorkerMoveKeeps(s, t, k, s.jobs.buf[0], AtWorker(k));
    } else if Holds(s.workers[k]) >= 0 {
      var i := Holds(s.workers[k]);
      if s.workers[k].SendFail? || s.workers[k].SendResult? {
        WorkerSendMoves(c, s, k, giveUp);
      } else {
        WorkerBusyMoves(c, s, k, giveUp);
      }
      WorkerMoveKeeps(s, t, k, i, t.stage[i]);
    } else {
      WorkerStops(c, s, k);
    }
  }

  lemma PlacesKeptWriter(c: Config, s: State)
    requires Places(c, s) && Enabled(c, s, Writer) && !Panicked(Step(c, s, Writer))
    ensures Places(c, Step(c, s, Writer))
  {
    hide ProducerPlaces, WorkerPlaces, QueueIs, WriterMove;
    var t := Step(c, s, Writer);
    if s.writer.WIdle? && s.results.buf != [] {
      WriterIdleMoves(c, s);
      WriterMoveKeeps(s, t, s.results.buf[0], AtWriter);
    } else if Writing(s.writer) >= 0 {
      WriterBusyMoves(c, s);
      WriterMoveKeeps(s, t, Writing(s.writer), t.stage[Writing(s.writer)]);
    }
  }

  /** The run goroutine only closes results, sends news and moves on. */
  ghost predicate MainFrame(s: State, t: State) {
    && t.stage == s.stage && t.producer == s.producer && t.workers == s.workers && t.writer == s.writer
    && t.cancelled == s.cancelled && t.jobs == s.jobs && t.results.buf == s.results.buf
    && t.table == s.table && t.thumbs == s.thumbs
  }

  lemma MainMovesNothing(c: Config, s: State, giveUp: bool)
    ensures MainFrame(s, MainStep(c, s, giveUp))
  {
    hide Emit;
    match s.main
    case CloseResults =>
    case _ =>
  }

  lemma PlacesKeptMain(c: Config, s: State, a: Action)
    requires Places(c, s) && Enabled(c, s, a) && (a.Main? || a.StatusLoop?)
    ensures Places(c, Step(c, s, a))
  {
    hide ProducerPlaces, WorkerPlaces, WriterPlaces, QueueIs, MainStep;
    if a.Main? {
      MainMovesNothing(c, s, a.giveUp);
    }
  }

  lemma PlacesKeptCancel(c: Config, s: State)
    requires Places(c, s) && Enabled(c, s, Cancel)
    ensures Places(c, Step(c, s, Cancel))
  {
    hide WorkerPlaces, WriterPlaces, QueueIs;
  }

  lemma PlacesKept(c: Config, s: State, a: Action)
    requires Places(c, s) && Enabled(c, s, a) && !Panicked(Step(c, s, a))
    ensures Places(c, Step(c, s, a))
  {
    hide *;
    match a
    case Producer(giveUp) => PlacesKeptProducer(c, s, giveUp);
    case Worker(k, giveUp) => PlacesKeptWorker(c, s, k, giveUp);
    case Writer => PlacesKeptWriter(c, s);
    case Cancel => PlacesKeptCancel(c, s);
    case Main(_) => PlacesKeptMain(c, s, a);
    case StatusLoop => PlacesKeptMain(c, s, a);
  }
}
