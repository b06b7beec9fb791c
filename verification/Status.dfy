/** The status events of a run and the snapshot they build: `applyEvent` of
    worker/coordinator.go and the records of worker/status.go. Elapsed time,
    rate and remaining-time estimates are left out. */
module Status {
  const MAX_ERRORS_KEPT := 50

  datatype Event =
    | Phase(phase: string)
    | Total(total: nat)
    | WorkerStart(workerId: nat, keyBase: string)
    | WorkerIdle(workerId: nat)
    | ItemDone(keyBase: string, bytes: nat)
    | ItemFailed(keyBase: string, msg: string)
    | Skip(keyBase: string)
    | Removed(removed: nat)
  {
    /** An outcome of one photo, as opposed to news about the run. */
    predicate Item?() {
      ItemDone? || ItemFailed? || Skip?
    }
  }

  datatype WorkerSlot = WorkerSlot(busy: bool, keyBase: string, lastKeyBase: string)

  datatype ItemError = ItemError(keyBase: string, msg: string)

  datatype Snapshot = Snapshot(phase: string, total: nat, processed: nat, skipped: nat, failed: nat,
                               bytesFreed: nat, removed: nat, workers: seq<WorkerSlot>,
                               lastError: string, errors: seq<ItemError>)

  function LastOf<T>(s: seq<T>, n: nat): seq<T> {
    if |s| > n then s[|s| - n..] else s
  }

  function ApplyEvent(s: Snapshot, ev: Event): Snapshot {
    match ev
    case Phase(phase) => s.(phase := phase)
    case Total(total) => s.(total := total)
    case WorkerStart(k, keyBase) =>
      if k < |s.workers| then
        var w := s.workers[k];
        s.(workers := s.workers[k := WorkerSlot(true, keyBase, if w.keyBase != "" then w.keyBase else w.lastKeyBase)])
      else s
    case WorkerIdle(k) =>
      if k < |s.workers| then
        var w := s.workers[k];
        s.(workers := s.workers[k := WorkerSlot(false, "", if w.keyBase != "" then w.keyBase else w.lastKeyBase)])
      else s
    case ItemDone(_, bytes) => s.(processed := s.processed + 1, bytesFreed := s.bytesFreed + bytes)
    case ItemFailed(keyBase, msg) =>
      s.(failed := s.failed + 1, lastError := keyBase + ": " + msg,
         errors := LastOf(s.errors + [ItemError(keyBase, msg)], MAX_ERRORS_KEPT))
    case Skip(_) => s.(skipped := s.skipped + 1)
    case Removed(n) => s.(removed := n)
  }

  /** The snapshot after a whole log of events. */
  function Replay(s: Snapshot, log: seq<Event>): Snapshot {
    if log == [] then s else ApplyEvent(Replay(s, log[..|log| - 1]), log[|log| - 1])
  }

  // What a log says, independently of any snapshot.

  function Failures(log: seq<Event>): seq<ItemError> {
    if log == [] then []
    else
      var ev := log[|log| - 1];
      Failures(log[..|log| - 1]) + if ev.ItemFailed? then [ItemError(ev.keyBase, ev.msg)] else []
  }

  /** The photos with an outcome in the log, in order. */
  function Items(log: seq<Event>): seq<string> {
    if log == [] then []
    else
      var ev := log[|log| - 1];
      Items(log[..|log| - 1]) + if ev.Item?() then [ev.keyBase] else []
  }

  function DoneItems(log: seq<Event>): seq<string> {
    if log == [] then []
    else
      var ev := log[|log| - 1];
      DoneItems(log[..|log| - 1]) + if ev.ItemDone? then [ev.keyBase] else []
  }

  function SkipItems(log: seq<Event>): seq<string> {
    if log == [] then []
    else
      var ev := log[|log| - 1];
      SkipItems(log[..|log| - 1]) + if ev.Skip? then [ev.keyBase] else []
  }

  /** The total last announced. */
  function Announced(log: seq<Event>): nat {
    if log == [] then 0
    else if log[|log| - 1].Total? then log[|log| - 1].total
    else Announced(log[..|log| - 1])
  }

  function BytesDone(log: seq<Event>): nat {
    if log == [] then 0
    else BytesDone(log[..|log| - 1]) + if log[|log| - 1].ItemDone? then log[|log| - 1].bytes else 0
  }

  /** A snapshot at the start of a run. */
  predicate Fresh?(s: Snapshot) {
    s.processed == 0 && s.skipped == 0 && s.failed == 0 && s.bytesFreed == 0 && s.errors == []
  }

  /** The counters partition the outcomes, the freed bytes are those of the
      photos done, and the errors kept are the last fifty, in order. */
  lemma {:induction false} ReplayAccounts(s: Snapshot, log: seq<Event>)
    requires Fresh?(s)
    ensures var r := Replay(s, log);
      && r.processed + r.skipped + r.failed == |Items(log)|
      && r.processed == |DoneItems(log)|
      && r.skipped == |SkipItems(log)|
      && r.failed == |Failures(log)|
      && r.bytesFreed == BytesDone(log)
      && r.errors == LastOf(Failures(log), MAX_ERRORS_KEPT)
  {
    if log != [] {
      ReplayAccounts(s, log[..|log| - 1]);
      var before := Failures(log[..|log| - 1]);
      var ev := log[|log| - 1];
      if ev.ItemFailed? {
        var e := ItemError(ev.keyBase, ev.msg);
        assert Failures(log) == before + [e];
        assert LastOf(LastOf(before, MAX_ERRORS_KEPT) + [e], MAX_ERRORS_KEPT) == LastOf(before + [e], MAX_ERRORS_KEPT);
      } else {
        assert Failures(log) == before;
      }
    }
  }

  /** The total and the phase are the last announced. */
  lemma {:induction false} ReplayTotal(s: Snapshot, log: seq<Event>)
    ensures s.total == 0 ==> Replay(s, log).total == Announced(log)
    ensures log != [] && log[|log| - 1].Phase? ==> Replay(s, log).phase == log[|log| - 1].phase
  {
    if log != [] {
      ReplayTotal(s, log[..|log| - 1]);
    }
  }

  // ---- What a snapshot says of its log ----

  /** The places of the failures in the log, in order, and what they say. */
  ghost predicate FailuresAt(log: seq<Event>, at: seq<nat>, errors: seq<ItemError>) {
    && |at| == |errors|
    && (forall i, j :: 0 <= i < j < |at| ==> at[i] < at[j])
    && (forall i :: 0 <= i < |at| ==>
          at[i] < |log| && log[at[i]].ItemFailed? && errors[i] == ItemError(log[at[i]].keyBase, log[at[i]].msg))
    && (forall n :: 0 <= n < |log| && log[n].ItemFailed? ==> n in at)
  }

  lemma {:induction false} FailurePlaces(log: seq<Event>) returns (at: seq<nat>)
    ensures FailuresAt(log, at, Failures(log))
  {
    hide FailuresAt;
    if log == [] {
      at := [];
      assert log == [] && Failures(log) == [];
      NoFailures(log);
    } else {
      var n := |log| - 1;
      at := FailurePlaces(log[..n]);
      OneMorePlace(log, at, Failures(log[..n]));
      assert Failures(log) == if log[n].ItemFailed? then Failures(log[..n]) + [ItemError(log[n].keyBase, log[n].msg)] else Failures(log[..n]);
      at := if log[n].ItemFailed? then at + [n] else at;
    }
  }

  lemma NoFailures(log: seq<Event>)
    requires log == []
    ensures FailuresAt(log, [], [])
  {
  }

  lemma OneMorePlace(log: seq<Event>, at: seq<nat>, errors: seq<ItemError>)
    requires log != [] && FailuresAt(log[..|log| - 1], at, errors)
    ensures var n := |log| - 1;
      if log[n].ItemFailed? then FailuresAt(log, at + [n], errors + [ItemError(log[n].keyBase, log[n].msg)])
      else FailuresAt(log, at, errors)
  {
    hide FailuresAt;
    if log[|log| - 1].ItemFailed? {
      FailureMore(log, at, errors);
    } else {
      FailureSame(log, at, errors);
    }
  }

  lemma FailureSame(log: seq<Event>, at: seq<nat>, errors: seq<ItemError>)
    requires log != [] && FailuresAt(log[..|log| - 1], at, errors) && !log[|log| - 1].ItemFailed?
    ensures FailuresAt(log, at, errors)
  {
    var less := log[..|log| - 1];
    assert forall m :: 0 <= m < |less| ==> less[m] == log[m];
  }

  lemma FailureMore(log: seq<Event>, at: seq<nat>, errors: seq<ItemError>)
    requires log != [] && FailuresAt(log[..|log| - 1], at, errors) && log[|log| - 1].ItemFailed?
    ensures FailuresAt(log, at + [|log| - 1], errors + [ItemError(log[|log| - 1].keyBase, log[|log| - 1].msg)])
  {
    var n := |log| - 1;
    var less := log[..n];
    assert forall m :: 0 <= m < n ==> less[m] == log[m];
    forall m | 0 <= m < |log| && log[m].ItemFailed?
      ensures m in at + [n]
    {
      if m < n {
        assert less[m].ItemFailed?;
        assert m in at;
      }
    }
  }

  predicate Done?(ev: Event) { ev.ItemDone? }

  predicate Skipped?(ev: Event) { ev.Skip? }

  predicate Failed?(ev: Event) { ev.ItemFailed? }

  /** The places of the log with such an event. */
  ghost function Which(log: seq<Event>, f: Event -> bool): set<nat> {
    set n: nat | n < |log| && f(log[n])
  }

  /** The numbers count the events, and at most fifty errors are kept. */
  lemma {:induction false} SnapshotCounts(s: Snapshot, log: seq<Event>)
    requires Fresh?(s)
    ensures var r := Replay(s, log);
      && r.processed == |Which(log, Done?)| && r.skipped == |Which(log, Skipped?)| && r.failed == |Which(log, Failed?)|
      && |r.errors| == (if r.failed < 50 then r.failed else 50)
  {
    hide Which;
    CountMore(log, Done?);
    CountMore(log, Skipped?);
    CountMore(log, Failed?);
    if log != [] {
      SnapshotCounts(s, log[..|log| - 1]);
    }
  }

  lemma CountMore(log: seq<Event>, f: Event -> bool)
    ensures |Which(log, f)| == if log == [] then 0 else |Which(log[..|log| - 1], f)| + if f(log[|log| - 1]) then 1 else 0
  {
    if log == [] {
      assert Which(log, f) == {};
    } else {
      var n := |log| - 1;
      assert forall m :: 0 <= m < n ==> log[..n][m] == log[m];
      assert Which(log, f) == Which(log[..n], f) + if f(log[n]) then {n} else {};
    }
  }

  /** The errors kept are the last ones, oldest first, and the one shown is the
      newest. */
  lemma {:induction false} SnapshotErrors(s: Snapshot, log: seq<Event>)
    requires Fresh?(s)
    ensures var r, all := Replay(s, log), Failures(log);
      && |r.errors| <= |all| && r.errors == all[|all| - |r.errors|..]
      && r.lastError == if all == [] then s.lastError else all[|all| - 1].keyBase + ": " + all[|all| - 1].msg
  {
    ReplayAccounts(s, log);
    if log != [] {
      SnapshotErrors(s, log[..|log| - 1]);
    }
  }

  predicate OnWorker(ev: Event, k: nat) {
    (ev.WorkerStart? || ev.WorkerIdle?) && ev.workerId == k
  }

  /** The last event on worker k is at n. */
  ghost predicate LastOn(log: seq<Event>, k: nat, n: nat) {
    n < |log| && OnWorker(log[n], k) && forall m :: n < m < |log| ==> !OnWorker(log[m], k)
  }

  /** A slot shows the photo of the last start on it, unless the worker has been
      idle since. */
  lemma {:induction false} SlotShows(s: Snapshot, log: seq<Event>, k: nat, n: nat)
    requires k < |s.workers| && LastOn(log, k, n)
    ensures |Replay(s, log).workers| == |s.workers|
    ensures var w := Replay(s, log).workers[k];
      && w.busy == log[n].WorkerStart?
      && w.keyBase == if log[n].WorkerStart? then log[n].keyBase else ""
  {
    SameSlots(s, log[..|log| - 1]);
    if n < |log| - 1 {
      assert log[..|log| - 1][n] == log[n];
      SlotShows(s, log[..|log| - 1], k, n);
    }
  }

  lemma {:induction false} SameSlots(s: Snapshot, log: seq<Event>)
    ensures |Replay(s, log).workers| == |s.workers|
  {
    if log != [] {
      SameSlots(s, log[..|log| - 1]);
    }
  }

  /** The preview of a slot is the photo started before the last event on it. */
  lemma {:induction false} SlotPreviews(s: Snapshot, log: seq<Event>, k: nat, m: nat, n: nat)
    requires k < |s.workers| && LastOn(log, k, n) && LastOn(log[..n], k, m) && log[m].WorkerStart? && log[m].keyBase != ""
    ensures |Replay(s, log).workers| == |s.workers| && Replay(s, log).workers[k].lastKeyBase == log[m].keyBase
  {
    SameSlots(s, log);
    SameSlots(s, log[..|log| - 1]);
    if n < |log| - 1 {
      assert log[..|log| - 1][..n] == log[..n] && log[..|log| - 1][n] == log[n];
      SlotPreviews(s, log[..|log| - 1], k, m, n);
    } else {
      SlotShows(s, log[..n], k, m);
    }
  }

  lemma {:induction false} ItemsAppend(a: seq<Event>, b: seq<Event>)
    ensures Items(a + b) == Items(a) + Items(b)
    ensures DoneItems(a + b) == DoneItems(a) + DoneItems(b)
    ensures BytesDone(a + b) == BytesDone(a) + BytesDone(b)
  {
    if b == [] {
      assert a + b == a;
    } else {
      var ab := a + b;
      assert ab[..|ab| - 1] == a + b[..|b| - 1];
      ItemsAppend(a, b[..|b| - 1]);
    }
  }

  /** The live snapshot: changed in place, one event at a time, by the status
      goroutine alone. */
  class StatusBoard {
    var phase: string
    var total: nat
    var processed: nat
    var skipped: nat
    var failed: nat
    var bytesFreed: nat
    var removed: nat
    var workers: seq<WorkerSlot>
    var lastError: string
    var errors: seq<ItemError>

    ghost function View(): Snapshot
      reads this
    {
      Snapshot(phase, total, processed, skipped, failed, bytesFreed, removed, workers, lastError, errors)
    }

    /** The snapshot installed when a run starts. */
    constructor (startPhase: string, startTotal: nat, nWorkers: nat)
      ensures Fresh?(View()) && phase == startPhase && total == startTotal && removed == 0 && lastError == ""
      ensures workers == seq(nWorkers, _ => WorkerSlot(false, "", ""))
    {
      phase, total, processed, skipped, failed, bytesFreed, removed := startPhase, startTotal, 0, 0, 0, 0, 0;
      workers := seq(nWorkers, _ => WorkerSlot(false, "", ""));
      lastError, errors := "", [];
    }

    method Apply(ev: Event) returns (phaseChange: bool)
      modifies this
      ensures View() == ApplyEvent(old(View()), ev)
      ensures phaseChange == ev.Phase?
    {
      phaseChange := false;
      match ev {
        case Phase(p) =>
          phase := p;
          phaseChange := true;
        case Total(n) =>
          total := n;
        case WorkerStart(k, keyBase) =>
          if k < |workers| {
            var w := workers[k];
            if w.keyBase != "" {
              w := w.(lastKeyBase := w.keyBase);
            }
            workers := workers[k := w.(busy := true, keyBase := keyBase)];
          }
        case WorkerIdle(k) =>
          if k < |workers| {
            var w := workers[k];
            if w.keyBase != "" {
              w := w.(lastKeyBase := w.keyBase);
            }
            workers := workers[k := w.(busy := false, keyBase := "")];
          }
        case ItemDone(_, bytes) =>
          processed := processed + 1;
          bytesFreed := bytesFreed + bytes;
        case ItemFailed(keyBase, msg) =>
          failed := failed + 1;
          lastError := keyBase + ": " + msg;
          errors := errors + [ItemError(keyBase, msg)];
          if |errors| > MAX_ERRORS_KEPT {
            errors := errors[|errors| - MAX_ERRORS_KEPT..];
          }
        case Skip(_) =>
          skipped := skipped + 1;
        case Removed(n) =>
          removed := n;
      }
    }

    /** The status loop: drains the events of a run in order. */
    method Drain(events: seq<Event>)
      modifies this
      ensures View() == Replay(old(View()), events)
    {
      var i := 0;
      while i < |events|
        invariant 0 <= i <= |events|
        invariant View() == Replay(old(View()), events[..i])
      {
        assert events[..i + 1][..i] == events[..i];
        var changed := Apply(events[i]);
        i := i + 1;
      }
      assert events[..i] == events;
    }
  }
}
