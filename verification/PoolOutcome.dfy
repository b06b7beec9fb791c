/** What the pool does to the catalog and to the status, photo by photo: every
    photo meets the fate its job decides, whatever the interleaving. */
module PoolOutcome {
  import opened Wrappers
  import opened CatalogStore
  import Status
  import opened Pool
  import opened PoolInvariant

  // ---- The fate of a photo ----

  /** The skip check fails on photo i. */
  predicate CheckFails(c: Config, i: nat)
    requires i < |c.jobs|
  {
    c.jobs[i].checkErr.Some? && !c.force
  }

  /** Photo i needs work, judged by the catalog before the run. */
  predicate Wanted(c: Config, i: nat)
    requires i < |c.jobs|
  {
    !CheckFails(c, i) && !ShouldSkip(c.table, c.thumbs, c.jobs[i].photo, c.force)
  }

  function Fate(c: Config, i: nat): Outcome
    requires i < |c.jobs|
  {
    if CheckFails(c, i) then CheckFailed
    else if !Wanted(c, i) then Skipped
    else if c.jobs[i].procErr.Some? then ProcFailed
    else if c.jobs[i].storeErr.Some? then StoreFailed
    else Done
  }

  predicate Fits(c: Config, i: nat, st: Stage)
    requires i < |c.jobs|
  {
    match st
    case InJobs => Wanted(c, i)
    case AtWorker(_) => Wanted(c, i)
    case Rendered(_) => Wanted(c, i) && c.jobs[i].procErr.None?
    case InResults => Wanted(c, i) && c.jobs[i].procErr.None?
    case AtWriter => Wanted(c, i) && c.jobs[i].procErr.None?
    case Stored(ok) => Wanted(c, i) && c.jobs[i].procErr.None? && (ok <==> c.jobs[i].storeErr.None?)
    case Reported(o) => o == Fate(c, i)
    case _ => true
  }

  ghost predicate Fates(c: Config, s: State) {
    && |s.stage| == |c.jobs|
    && (forall i :: 0 <= i < |s.stage| ==> Fits(c, i, s.stage[i]))
    && (match s.producer
        case SendCheckErr(i) => i < |c.jobs| && CheckFails(c, i)
        case SendSkip(i) => i < |c.jobs| && !CheckFails(c, i) && !Wanted(c, i)
        case Offer(i) => i < |c.jobs| && Wanted(c, i)
        case _ => true)
    && (forall k :: 0 <= k < |s.workers| && s.workers[k].SendFail? ==>
          s.workers[k].i < |c.jobs| && c.jobs[s.workers[k].i].procErr.Some?)
  }

  // ---- The catalog ----

  predicate IsWritten(st: Stage) { st == Stored(true) || st == Reported(Done) }

  predicate IsRendered(st: Stage) {
    st.Rendered? || st.InResults? || st.AtWriter? || st.Stored? || st == Reported(Done) || st == Reported(StoreFailed)
  }

  predicate IsReported(st: Stage) { st.Reported? }

  predicate IsDone(st: Stage) { st == Reported(Done) }

  predicate IsSkipped(st: Stage) { st == Reported(Skipped) }

  /** The key bases of the photos whose stage satisfies f. */
  ghost function BasesAt(c: Config, stage: seq<Stage>, f: Stage -> bool): set<string>
    requires |stage| == |c.jobs|
  {
    set i | 0 <= i < |stage| && f(stage[i]) :: Base(c, i)
  }

  lemma BasesMove(c: Config, stage: seq<Stage>, f: Stage -> bool, i: nat, to: Stage)
    requires Valid(c) && |stage| == |c.jobs| && i < |stage|
    ensures f(stage[i]) == f(to) ==> BasesAt(c, stage[i := to], f) == BasesAt(c, stage, f)
    ensures !f(stage[i]) ==> Base(c, i) !in BasesAt(c, stage, f)
    ensures !f(stage[i]) && f(to) ==> BasesAt(c, stage[i := to], f) == BasesAt(c, stage, f) + {Base(c, i)}
  {
    var after := stage[i := to];
    forall b | b in BasesAt(c, stage, f) && b != Base(c, i)
      ensures b in BasesAt(c, after, f)
    {
      var j :| 0 <= j < |stage| && f(stage[j]) && Base(c, j) == b;
      assert f(after[j]);
    }
    forall b | b in BasesAt(c, after, f) && b != Base(c, i)
      ensures b in BasesAt(c, stage, f)
    {
      var j :| 0 <= j < |after| && f(after[j]) && Base(c, j) == b;
      assert f(stage[j]);
    }
    if f(to) {
      assert f(after[i]);
    }
    if f(stage[i]) && f(to) {
      assert Base(c, i) in BasesAt(c, stage, f);
    }
  }

  /** The row of photo i after its upsert, up to the id of a new row. */
  ghost predicate WrittenRow(c: Config, i: nat, row: Row)
    requires i < |c.jobs|
  {
    var p := c.jobs[i].photo;
    && row.photo == p && row.meta == c.jobs[i].meta && row.thumbPath == ThumbPath(p.keyBase)
    && if p.keyBase in c.table.rows then
         var prior := c.table.rows[p.keyBase];
         row.id == prior.id && row.rating == prior.rating && row.discarded == prior.discarded
       else row.rating == 0 && !row.discarded
  }

  ghost function ThumbPaths(bases: set<string>): set<string> {
    set b | b in bases :: ThumbPath(b)
  }

  /** The starting catalog with the rows of `written` replaced or added, and the
      thumbnails of `rendered` added: nothing more, nothing less. */
  ghost predicate CatalogIs(c: Config, table: Table, thumbs: set<string>, written: set<string>, rendered: set<string>) {
    && table.rows.Keys == c.table.rows.Keys + written
    && (forall k :: k in c.table.rows && k !in written ==> table.rows[k] == c.table.rows[k])
    && (forall i :: 0 <= i < |c.jobs| && Base(c, i) in written ==> WrittenRow(c, i, table.rows[Base(c, i)]))
    && thumbs == c.thumbs + ThumbPaths(rendered)
  }

  ghost predicate Catalogued(c: Config, s: State) {
    && |s.stage| == |c.jobs|
    && CatalogIs(c, s.table, s.thumbs, BasesAt(c, s.stage, IsWritten), BasesAt(c, s.stage, IsRendered))
  }

  lemma UpsertWrites(c: Config, table: Table, thumbs: set<string>, written: set<string>, rendered: set<string>, i: nat)
    requires Valid(c) && i < |c.jobs| && CatalogIs(c, table, thumbs, written, rendered) && Base(c, i) !in written
    ensures CatalogIs(c, Upsert(table, c.jobs[i].photo, c.jobs[i].meta), thumbs, written + {Base(c, i)}, rendered)
  {
    var after := Upsert(table, c.jobs[i].photo, c.jobs[i].meta);
    assert after.rows.Keys == table.rows.Keys + {Base(c, i)};
    forall j | 0 <= j < |c.jobs| && Base(c, j) in written + {Base(c, i)}
      ensures WrittenRow(c, j, after.rows[Base(c, j)])
    {
      if j != i {
        assert Base(c, j) != Base(c, i);
      }
    }
  }

  lemma RenderAdds(c: Config, table: Table, thumbs: set<string>, written: set<string>, rendered: set<string>, base: string)
    requires CatalogIs(c, table, thumbs, written, rendered)
    ensures CatalogIs(c, table, thumbs + {ThumbPath(base)}, written, rendered + {base})
  {
    assert ThumbPaths(rendered + {base}) == ThumbPaths(rendered) + {ThumbPath(base)};
  }

  /** The skip check of a photo not yet touched sees the catalog of the start. */
  lemma UntouchedSkip(c: Config, table: Table, thumbs: set<string>, written: set<string>, rendered: set<string>, i: nat)
    requires i < |c.jobs| && CatalogIs(c, table, thumbs, written, rendered)
    requires Base(c, i) !in written && Base(c, i) !in rendered
    ensures ShouldSkip(table, thumbs, c.jobs[i].photo, c.force) == ShouldSkip(c.table, c.thumbs, c.jobs[i].photo, c.force)
  {
    var base := Base(c, i);
    if ThumbPath(base) in ThumbPaths(rendered) {
      var b :| b in rendered && ThumbPath(b) == ThumbPath(base);
      ThumbPathInjective(b, base);
    }
  }

  // ---- The status ----

  /** The log tells the outcome of exactly the reported photos, once each. */
  ghost predicate Tells(c: Config, sent: seq<Event>, stage: seq<Stage>) {
    && |stage| == |c.jobs|
    && ToSet(Status.Items(sent)) == BasesAt(c, stage, IsReported)
    && |Status.Items(sent)| == |BasesAt(c, stage, IsReported)|
    && |Status.DoneItems(sent)| == |BasesAt(c, stage, IsDone)|
    && |Status.SkipItems(sent)| == |BasesAt(c, stage, IsSkipped)|
  }

  // ---- One step ----

  /** The event that reports photo i with outcome o. */
  predicate Reports(c: Config, i: nat, o: Outcome, ev: Event)
    requires i < |c.jobs|
  {
    && ev.Item?() && ev.keyBase == Base(c, i)
    && (ev.ItemDone? <==> o.Done?)
    && (ev.Skip? <==> o.Skipped?)
  }

  /** At most one event more. */
  ghost predicate Grows(before: EventLog, after: EventLog) {
    after.sent == before.sent || (|after.sent| == |before.sent| + 1 && after.sent[..|before.sent|] == before.sent)
  }

  /** News that is no outcome, or none. */
  ghost predicate NewsOnly(before: EventLog, after: EventLog) {
    Grows(before, after) && (|after.sent| > |before.sent| ==> !after.sent[|before.sent|].Item?())
  }

  ghost predicate NoOutcome(s: State, t: State) {
    NewsOnly(s.events, t.events)
  }

  lemma EmitNews(log: EventLog, ev: Event)
    requires !ev.Item?()
    ensures NewsOnly(log, Emit(log, ev))
  {
  }

  /** Photo i moves to stage `to` and the catalog and the log follow. */
  ghost predicate Accounted(c: Config, s: State, t: State, i: nat, to: Stage) {
    && i < |c.jobs| && |s.stage| == |c.jobs| && Moves(s, t, i, to)
    && !s.stage[i].Reported? && Fits(c, i, to)
    && (if to.Reported? then
          |t.events.sent| == |s.events.sent| + 1 && t.events.sent[..|s.events.sent|] == s.events.sent
          && Reports(c, i, to.outcome, t.events.sent[|s.events.sent|])
        else NoOutcome(s, t))
    && (if to == Stored(true) then !IsWritten(s.stage[i]) && t.table == Upsert(s.table, c.jobs[i].photo, c.jobs[i].meta)
        else t.table == s.table && IsWritten(to) == IsWritten(s.stage[i]))
    && (if to.Rendered? then !IsRendered(s.stage[i]) && t.thumbs == s.thumbs + {ThumbPath(Base(c, i))}
        else t.thumbs == s.thumbs && IsRendered(to) == IsRendered(s.stage[i]))
  }

  lemma AccountedCatalog(c: Config, s: State, t: State, i: nat, to: Stage)
    requires Valid(c) && Catalogued(c, s) && Accounted(c, s, t, i, to)
    ensures Catalogued(c, t)
  {
    BasesMove(c, s.stage, IsWritten, i, to);
    BasesMove(c, s.stage, IsRendered, i, to);
    var written, rendered := BasesAt(c, s.stage, IsWritten), BasesAt(c, s.stage, IsRendered);
    if to == Stored(true) {
      UpsertWrites(c, s.table, s.thumbs, written, rendered, i);
    } else if to.Rendered? {
      RenderAdds(c, s.table, s.thumbs, written, rendered, Base(c, i));
    }
  }

  lemma AccountedTells(c: Config, s: State, t: State, i: nat, to: Stage)
    requires Valid(c) && Tells(c, s.events.sent, s.stage) && Accounted(c, s, t, i, to)
    ensures Tells(c, t.events.sent, t.stage)
  {
    hide Fits, Valid, IsWritten, IsRendered, BasesAt, Upsert, ThumbPath, NoOutcome, Status.Items, Status.DoneItems, Status.SkipItems;
    BasesMove(c, s.stage, IsReported, i, to);
    BasesMove(c, s.stage, IsDone, i, to);
    BasesMove(c, s.stage, IsSkipped, i, to);
    if to.Reported? {
      ReportTells(s.events.sent, t.events.sent, Base(c, i));
    } else {
      NoOutcomeTells(s, t);
    }
  }

  lemma ReportTells(before: seq<Event>, after: seq<Event>, base: string)
    requires |after| == |before| + 1 && after[..|before|] == before
    requires after[|before|].Item?() && after[|before|].keyBase == base
    ensures ToSet(Status.Items(after)) == ToSet(Status.Items(before)) + {base}
    ensures |Status.Items(after)| == |Status.Items(before)| + 1
    ensures |Status.DoneItems(after)| == |Status.DoneItems(before)| + if after[|before|].ItemDone? then 1 else 0
    ensures |Status.SkipItems(after)| == |Status.SkipItems(before)| + if after[|before|].Skip? then 1 else 0
  {
    assert Status.Items(after) == Status.Items(before) + [base];
  }

  lemma NoOutcomeTells(s: State, t: State)
    requires NoOutcome(s, t)
    ensures Status.Items(t.events.sent) == Status.Items(s.events.sent)
    ensures Status.DoneItems(t.events.sent) == Status.DoneItems(s.events.sent)
    ensures Status.SkipItems(t.events.sent) == Status.SkipItems(s.events.sent)
  {
  }

  lemma ProducerTopAccounts(c: Config, s: State)
    requires Valid(c) && Places(c, s) && Fates(c, s) && Catalogued(c, s)
    requires s.producer.Top? && s.producer.next < |c.jobs| && !s.cancelled && Enabled(c, s, Producer(false))
    ensures var t := Step(c, s, Producer(false));
      Accounted(c, s, t, s.producer.next, AtProducer) && Fates(c, t)
  {
    hide CatalogIs, WorkerPlaces, WriterPlaces, QueueIs, ShouldSkip, Emit;
    var i := s.producer.next;
    assert s.stage[i].Unseen?;
    BasesMove(c, s.stage, IsWritten, i, AtProducer);
    BasesMove(c, s.stage, IsRendered, i, AtProducer);
    UntouchedSkip(c, s.table, s.thumbs, BasesAt(c, s.stage, IsWritten), BasesAt(c, s.stage, IsRendered), i);
  }

  lemma ProducerReportAccounts(c: Config, s: State, giveUp: bool)
    requires Shaped(c, s) && ProducerPlaces(s.producer, s.cancelled, s.stage) && Fates(c, s) && (s.producer.SendCheckErr? || s.producer.SendSkip?)
    requires ProducerEnabled(c, s, giveUp) && !Panicked(ProducerStep(c, s, giveUp))
    ensures var t := ProducerStep(c, s, giveUp);
      var i := Offering(s.producer);
      i < |t.stage| && Accounted(c, s, t, i, t.stage[i]) && Offering(t.producer) < 0 && t.workers == s.workers
  {
    hide ShouldSkip, CanEmit, CanSend, Upsert, ProducerPlaces;
    ProducerHas(s.producer, s.cancelled, s.stage);
  }

  lemma ProducerOfferAccounts(c: Config, s: State, giveUp: bool)
    requires Shaped(c, s) && ProducerPlaces(s.producer, s.cancelled, s.stage) && Fates(c, s) && (s.producer.Offer?)
    requires ProducerEnabled(c, s, giveUp) && !Panicked(ProducerStep(c, s, giveUp))
    ensures var t := ProducerStep(c, s, giveUp);
      var i := Offering(s.producer);
      i < |t.stage| && Accounted(c, s, t, i, t.stage[i]) && Offering(t.producer) < 0 && t.workers == s.workers
  {
    hide ShouldSkip, CanEmit, CanSend, Upsert, ProducerPlaces, Emit, Wanted;
    ProducerHas(s.producer, s.cancelled, s.stage);
  }

  lemma ProducerGiveFates(c: Config, s: State, t: State, i: nat, to: Stage)
    requires Fates(c, s) && Accounted(c, s, t, i, to) && Offering(t.producer) < 0 && t.workers == s.workers
    ensures Fates(c, t)
  {
    hide Fits, NoOutcome, Reports, Upsert;
  }

  lemma WorkerIdleAccounts(c: Config, s: State, k: nat)
    requires QueueIs(s.jobs.buf, s.stage, InJobs) && Fates(c, s)
    requires Enabled(c, s, Worker(k, false)) && s.workers[k].Idle? && s.jobs.buf != []
    ensures var t := Step(c, s, Worker(k, false));
      Accounted(c, s, t, s.jobs.buf[0], AtWorker(k)) && Fates(c, t)
  {
    hide ShouldSkip;
  }

  ghost predicate WorkerAccounted(c: Config, s: State, t: State, k: nat) {
    && k < |s.workers| && k < |t.workers| && 0 <= Holds(s.workers[k]) < |c.jobs| && |t.stage| == |c.jobs|
    && t.producer == s.producer && t.workers == s.workers[k := t.workers[k]]
    && (t.workers[k].SendFail? ==> t.workers[k].i < |c.jobs| && c.jobs[t.workers[k].i].procErr.Some?)
    && if t.stage == s.stage then t.table == s.table && t.thumbs == s.thumbs && NoOutcome(s, t)
       else Accounted(c, s, t, Holds(s.workers[k]), t.stage[Holds(s.workers[k])])
  }

  lemma WorkerGotAccounts(c: Config, s: State, k: nat, giveUp: bool)
    requires WorkerPlaces(s.workers, s.stage) && Fates(c, s)
    requires Enabled(c, s, Worker(k, giveUp)) && !Panicked(Step(c, s, Worker(k, giveUp))) && (s.workers[k].Got? || s.workers[k].Started?)
    ensures WorkerAccounted(c, s, Step(c, s, Worker(k, giveUp)), k)
  {
    hide ShouldSkip, CanEmit, WorkerPlaces;
    WorkerHas(s.workers, s.stage, k);
  }

  lemma WorkerWorkingAccounts(c: Config, s: State, k: nat, giveUp: bool)
    requires WorkerPlaces(s.workers, s.stage) && Fates(c, s)
    requires Enabled(c, s, Worker(k, giveUp)) && !Panicked(Step(c, s, Worker(k, giveUp))) && (s.workers[k].Working?)
    ensures WorkerAccounted(c, s, Step(c, s, Worker(k, giveUp)), k)
  {
    hide ShouldSkip, CanEmit, WorkerPlaces, Emit;
    WorkerHas(s.workers, s.stage, k);
  }

  lemma WorkerSendAccounts(c: Config, s: State, k: nat, giveUp: bool)
    requires WorkerPlaces(s.workers, s.stage) && Fates(c, s)
    requires Enabled(c, s, Worker(k, giveUp)) && !Panicked(Step(c, s, Worker(k, giveUp))) && (s.workers[k].SendFail? || s.workers[k].SendResult?)
    ensures WorkerAccounted(c, s, Step(c, s, Worker(k, giveUp)), k)
  {
    hide ShouldSkip, CanEmit, WorkerPlaces;
    WorkerHas(s.workers, s.stage, k);
  }

  lemma WorkerFates(c: Config, s: State, t: State, k: nat)
    requires Fates(c, s) && WorkerAccounted(c, s, t, k)
    ensures Fates(c, t)
  {
    hide ShouldSkip;
    var i := Holds(s.workers[k]);
    if t.stage != s.stage {
      assert t.stage == s.stage[i := t.stage[i]];
    }
  }

  lemma WriterIdleAccounts(c: Config, s: State)
    requires QueueIs(s.results.buf, s.stage, InResults) && Fates(c, s)
    requires Enabled(c, s, Writer) && s.writer.WIdle? && s.results.buf != []
    ensures var t := Step(c, s, Writer);
      Accounted(c, s, t, s.results.buf[0], AtWriter) && Fates(c, t)
  {
    hide ShouldSkip;
  }

  lemma WriterStores(c: Config, s: State)
    requires Shaped(c, s) && WriterPlaces(s.writer, s.stage) && Fates(c, s) && s.writer.WGot?
    ensures var t := WriterStep(c, s);
      var i := s.writer.i;
      i < |t.stage| && Accounted(c, s, t, i, t.stage[i]) && Fates(c, t)
  {
    hide ShouldSkip, Upsert, CanEmit, ThumbPath;
  }

  lemma WriterReports(c: Config, s: State)
    requires Shaped(c, s) && WriterPlaces(s.writer, s.stage) && Fates(c, s) && s.writer.WSend?
    requires !Panicked(WriterStep(c, s))
    ensures var t := WriterStep(c, s);
      var i := s.writer.i;
      i < |t.stage| && Accounted(c, s, t, i, t.stage[i]) && Fates(c, t)
  {
    hide ShouldSkip, Upsert, CanEmit, ThumbPath;
  }

  lemma WriterBusyAccounts(c: Config, s: State)
    requires Shaped(c, s) && WriterPlaces(s.writer, s.stage) && Fates(c, s)
    requires WriterEnabled(c, s) && !Panicked(WriterStep(c, s)) && Writing(s.writer) >= 0
    ensures var t := WriterStep(c, s);
      var i := Writing(s.writer);
      i < |t.stage| && Accounted(c, s, t, i, t.stage[i]) && Fates(c, t)
  {
    hide Shaped, WriterPlaces, Fates, WriterStep, Accounted;
    if s.writer.WGot? {
      WriterStores(c, s);
    } else {
      WriterReports(c, s);
    }
  }

  // ---- Every step ----

  /** A step that leaves every photo where it is, and the catalog alone. */
  ghost predicate Quiet(s: State, t: State) {
    t.stage == s.stage && t.table == s.table && t.thumbs == s.thumbs && NoOutcome(s, t)
  }

  lemma MainQuiet(c: Config, s: State, giveUp: bool)
    ensures NoOutcome(s, MainStep(c, s, giveUp))
  {
    hide NewsOnly, Emit;
    NothingNew(s.events, MainStep(c, s, giveUp).events);
    match s.main
    case SendTotal => EmitNews(s.events, Status.Total(|c.jobs|));
    case SendRunning => EmitNews(s.events, Status.Phase("running"));
    case SendPhase(phase) => EmitNews(s.events, Status.Phase(phase));
    case _ =>
  }

  lemma NothingNew(before: EventLog, after: EventLog)
    ensures before.sent == after.sent ==> NewsOnly(before, after)
  {
  }

  /** A process that has no photo in hand and takes none. */
  ghost predicate EmptyHanded(c: Config, s: State, a: Action) {
    match a
    case Producer(_) => Offering(s.producer) < 0 && !(s.producer.Top? && s.producer.next < |c.jobs| && !s.cancelled)
    case Worker(k, _) => k < |s.workers| && Holds(s.workers[k]) < 0 && !(s.workers[k].Idle? && s.jobs.buf != [])
    case Writer => Writing(s.writer) < 0 && !(s.writer.WIdle? && s.results.buf != [])
    case _ => true
  }

  lemma EmptyHandedQuiet(c: Config, s: State, a: Action)
    requires Enabled(c, s, a) && !Panicked(Step(c, s, a)) && EmptyHanded(c, s, a) && !a.Main?
    ensures Quiet(s, Step(c, s, a))
  {
    hide ShouldSkip, CanEmit, MainStep, Shaped, Upsert, Base, Text, ThumbPath, CanSend, CanReceive, Send;
    match a
    case Worker(k, giveUp) => assert s.workers[k].Idle? || s.workers[k].SendIdle?;
    case _ =>
  }

  lemma EmptyHandedFates(c: Config, s: State, a: Action)
    requires Enabled(c, s, a) && EmptyHanded(c, s, a) && !a.Main? && Fates(c, s)
    ensures Fates(c, Step(c, s, a))
  {
    hide ShouldSkip, CanEmit, Emit, MainStep, Shaped, Upsert, Base, Text, Fits;
  }

  ghost predicate Inv(c: Config, s: State) {
    Control(c, s) && Places(c, s) && Fates(c, s) && Catalogued(c, s) && Tells(c, s.events.sent, s.stage)
  }

  lemma QuietKeeps(c: Config, s: State, t: State)
    requires Catalogued(c, s) && Tells(c, s.events.sent, s.stage) && Quiet(s, t)
    ensures Catalogued(c, t) && Tells(c, t.events.sent, t.stage)
  {
    NoOutcomeTells(s, t);
  }

  lemma MoveKeeps(c: Config, s: State, t: State, i: nat, to: Stage)
    requires Valid(c) && Catalogued(c, s) && Tells(c, s.events.sent, s.stage) && Accounted(c, s, t, i, to)
    ensures Catalogued(c, t) && Tells(c, t.events.sent, t.stage)
  {
    hide *;
    AccountedCatalog(c, s, t, i, to);
    AccountedTells(c, s, t, i, to);
  }

  lemma OutcomeKeptProducer(c: Config, s: State, giveUp: bool)
    requires Valid(c) && Inv(c, s) && Enabled(c, s, Producer(giveUp)) && !Panicked(Step(c, s, Producer(giveUp)))
    ensures var t := Step(c, s, Producer(giveUp));
      Fates(c, t) && Catalogued(c, t) && Tells(c, t.events.sent, t.stage)
  {
    hide Control, ProducerPlaces, WorkerPlaces, WriterPlaces, QueueIs, Fates, Catalogued, Tells, Accounted, Quiet, ProducerStep;
    var t := Step(c, s, Producer(giveUp));
    if s.producer.Top? && s.producer.next < |c.jobs| && !s.cancelled {
      ProducerTopAccounts(c, s);
      MoveKeeps(c, s, t, s.producer.next, AtProducer);
    } else if Offering(s.producer) >= 0 {
      if s.producer.Offer? {
        ProducerOfferAccounts(c, s, giveUp);
      } else {
        ProducerReportAccounts(c, s, giveUp);
      }
      ProducerGiveFates(c, s, t, Offering(s.producer), t.stage[Offering(s.producer)]);
      MoveKeeps(c, s, t, Offering(s.producer), t.stage[Offering(s.producer)]);
    } else {
      EmptyHandedQuiet(c, s, Producer(giveUp));
      EmptyHandedFates(c, s, Producer(giveUp));
      QuietKeeps(c, s, t);
    }
  }

  lemma WorkerBusyKeeps(c: Config, s: State, t: State, k: nat)
    requires Valid(c) && Fates(c, s) && Catalogued(c, s) && Tells(c, s.events.sent, s.stage) && WorkerAccounted(c, s, t, k)
    ensures Fates(c, t) && Catalogued(c, t) && Tells(c, t.events.sent, t.stage)
  {
    hide Fates, Catalogued, Tells, Accounted;
    WorkerFates(c, s, t, k);
    if t.stage == s.stage {
      QuietKeeps(c, s, t);
    } else {
      MoveKeeps(c, s, t, Holds(s.workers[k]), t.stage[Holds(s.workers[k])]);
    }
  }

  lemma OutcomeKeptWorker(c: Config, s: State, k: nat, giveUp: bool)
    requires Valid(c) && Inv(c, s) && Enabled(c, s, Worker(k, giveUp)) && !Panicked(Step(c, s, Worker(k, giveUp)))
    ensures var t := Step(c, s, Worker(k, giveUp));
      Fates(c, t) && Catalogued(c, t) && Tells(c, t.events.sent, t.stage)
  {
    hide Control, ProducerPlaces, WorkerPlaces, WriterPlaces, QueueIs, Fates, Catalogued, Tells, Accounted, Quiet, WorkerStep, WorkerAccounted;
    var t := Step(c, s, Worker(k, giveUp));
    var pc := s.workers[k];
    if pc.Idle? && s.jobs.buf != [] {
      WorkerIdleAccounts(c, s, k);
      MoveKeeps(c, s, t, s.jobs.buf[0], AtWorker(k));
    } else if Holds(pc) >= 0 {
      if pc.Working? {
        WorkerWorkingAccounts(c, s, k, giveUp);
      } else if pc.SendFail? || pc.SendResult? {
        WorkerSendAccounts(c, s, k, giveUp);
      } else {
        WorkerGotAccounts(c, s, k, giveUp);
      }
      WorkerBusyKeeps(c, s, t, k);
    } else {
      EmptyHandedQuiet(c, s, Worker(k, giveUp));
      EmptyHandedFates(c, s, Worker(k, giveUp));
      QuietKeeps(c, s, t);
    }
  }

  lemma OutcomeKeptWriter(c: Config, s: State)
    requires Valid(c) && Inv(c, s) && Enabled(c, s, Writer) && !Panicked(Step(c, s, Writer))
    ensures var t := Step(c, s, Writer);
      Fates(c, t) && Catalogued(c, t) && Tells(c, t.events.sent, t.stage)
  {
    hide Control, ProducerPlaces, WorkerPlaces, WriterPlaces, QueueIs, Fates, Catalogued, Tells, Accounted, Quiet, WriterStep;
    var t := Step(c, s, Writer);
    if s.writer.WIdle? && s.results.buf != [] {
      WriterIdleAccounts(c, s);
      MoveKeeps(c, s, t, s.results.buf[0], AtWriter);
    } else if Writing(s.writer) >= 0 {
      WriterBusyAccounts(c, s);
      MoveKeeps(c, s, t, Writing(s.writer), t.stage[Writing(s.writer)]);
    } else {
      EmptyHandedQuiet(c, s, Writer);
      EmptyHandedFates(c, s, Writer);
      QuietKeeps(c, s, t);
    }
  }

  lemma OutcomeKeptMain(c: Config, s: State, a: Action)
    requires Valid(c) && Inv(c, s) && Enabled(c, s, a) && !Panicked(Step(c, s, a)) && (a.Main? || a.StatusLoop? || a.Cancel?)
    ensures var t := Step(c, s, a);
      Fates(c, t) && Catalogued(c, t) && Tells(c, t.events.sent, t.stage)
  {
    hide Control, Places, Catalogued, Tells, Quiet, MainStep, MainEnabled, Fits, Shaped;
    var t := Step(c, s, a);
    if a.Main? {
      MainQuiet(c, s, a.giveUp);
      MainMovesNothing(c, s, a.giveUp);
    } else {
      EmptyHandedQuiet(c, s, a);
      EmptyHandedFates(c, s, a);
    }
    QuietKeeps(c, s, t);
  }

  /** The invariant of the pool: kept by every step of every process. */
  lemma InvKept(c: Config, s: State, a: Action)
    requires Valid(c) && Inv(c, s) && Enabled(c, s, a)
    ensures Inv(c, Step(c, s, a))
  {
    hide Valid, Control, Places, Fates, Catalogued, Tells, Enabled, Step;
    ControlKept(c, s, a);
    NotPanicked(c, Step(c, s, a));
    PlacesKept(c, s, a);
    match a
    case Producer(giveUp) => OutcomeKeptProducer(c, s, giveUp);
    case Worker(k, giveUp) => OutcomeKeptWorker(c, s, k, giveUp);
    case Writer => OutcomeKeptWriter(c, s);
    case _ => OutcomeKeptMain(c, s, a);
  }

  lemma NotPanicked(c: Config, s: State)
    requires Control(c, s)
    ensures !Panicked(s) && Shaped(c, s)
  {
  }

  lemma InitControl(c: Config)
    requires Valid(c)
    ensures Control(c, Init(c))
  {
  }

  lemma InitPlaces(c: Config)
    ensures Places(c, Init(c)) && Fates(c, Init(c))
  {
    hide Fate, Wanted, CheckFails;
  }

  lemma InvInit(c: Config)
    requires Valid(c)
    ensures Inv(c, Init(c))
  {
    hide Control, Places, Fates;
    InitControl(c);
    InitPlaces(c);
    var s := Init(c);
    assert BasesAt(c, s.stage, IsWritten) == {};
    assert BasesAt(c, s.stage, IsRendered) == {};
    assert BasesAt(c, s.stage, IsReported) == {};
    assert BasesAt(c, s.stage, IsDone) == {};
    assert BasesAt(c, s.stage, IsSkipped) == {};
    assert ThumbPaths({}) == {};
  }
}
