/** What one purge does (worker/purge.go), as a function of the world, the list
    taken at its start and the faults it meets; and that purges converge. */
module Purge {
  import opened Wrappers
  import opened CatalogStore
  import opened World
  import Status

  type Event = Status.Event

  const BATCH := 200

  /** The answer of the bucket to one delete call: the keys it refused, or the
      failure of the whole call after an arbitrary part of its work. */
  datatype Answer = Answered(refused: map<string, string>) | CallFailed(gone: set<string>, msg: string)

  /** What happens around one batch: the cancellation seen before it, the user
      decisions before the recheck and before the row deletion, and failures, among
      them those of thumbnails that cannot be removed. */
  datatype Faults = Faults(cancelledBefore: bool, before: seq<UserAction>, recheckErr: Option<string>,
                           answer: Answer, cancelledInCall: bool, stuck: set<string>, during: seq<UserAction>, storeErr: Option<string>)

  /** Where a batch or a purge ends: the world, the events sent, the photos
      erased, and whether it stopped for the cancellation. */
  datatype End = End(w: World, events: seq<Event>, erased: seq<Doomed>, cancelled: bool)

  // ---- The loops over a batch ----

  function Live(w: World, batch: seq<Doomed>): seq<Doomed> {
    if batch == [] then []
    else Live(w, batch[..|batch| - 1]) + if StillDiscarded(w, batch[|batch| - 1].keyBase) then [batch[|batch| - 1]] else []
  }

  function Spared(w: World, batch: seq<Doomed>): seq<Event> {
    if batch == [] then []
    else
      var d := batch[|batch| - 1];
      Spared(w, batch[..|batch| - 1]) + if StillDiscarded(w, d.keyBase) then [] else [Status.Skip(d.keyBase)]
  }

  function AllFailed(ds: seq<Doomed>, msg: string): seq<Event> {
    if ds == [] then [] else AllFailed(ds[..|ds| - 1], msg) + [Status.ItemFailed(ds[|ds| - 1].keyBase, msg)]
  }

  function AllDone(ds: seq<Doomed>): seq<Event> {
    if ds == [] then []
    else AllDone(ds[..|ds| - 1]) + [Status.ItemDone(ds[|ds| - 1].keyBase, ds[|ds| - 1].jpegSize + ds[|ds| - 1].rafSize)]
  }

  predicate Refuses(refused: map<string, string>, d: Doomed) {
    d.jpegKey in refused || (d.rafKey != "" && d.rafKey in refused)
  }

  function Refusal(refused: map<string, string>, d: Doomed): Event
    requires Refuses(refused, d)
  {
    var key := if d.jpegKey in refused then d.jpegKey else d.rafKey;
    Status.ItemFailed(d.keyBase, "s3 " + key + ": " + refused[key])
  }

  function Refusals(ds: seq<Doomed>, refused: map<string, string>): seq<Event> {
    if ds == [] then []
    else
      var d := ds[|ds| - 1];
      Refusals(ds[..|ds| - 1], refused) + if Refuses(refused, d) then [Refusal(refused, d)] else []
  }

  function Survivors(ds: seq<Doomed>, refused: map<string, string>): seq<Doomed> {
    if ds == [] then []
    else
      var d := ds[|ds| - 1];
      Survivors(ds[..|ds| - 1], refused) + if Refuses(refused, d) then [] else [d]
  }

  function Bases(ds: seq<Doomed>): seq<string> {
    if ds == [] then [] else Bases(ds[..|ds| - 1]) + [ds[|ds| - 1].keyBase]
  }

  function BaseSet(ds: seq<Doomed>): set<string> {
    set d | d in ds :: d.keyBase
  }

  function KeySet(ds: seq<Doomed>): set<string> {
    set d, k | d in ds && k in Keys(d) :: k
  }

  function PathSet(ds: seq<Doomed>): set<string> {
    set d, p | d in ds && p in Paths(d) :: p
  }

  function Sizes(ds: seq<Doomed>): nat {
    if ds == [] then 0 else Sizes(ds[..|ds| - 1]) + ds[|ds| - 1].jpegSize + ds[|ds| - 1].rafSize
  }

  lemma {:induction false} LiveMeans(w: World, batch: seq<Doomed>)
    ensures forall d :: d in Live(w, batch) <==> d in batch && StillDiscarded(w, d.keyBase)
  {
    hide StillDiscarded;
    if batch != [] {
      LiveMeans(w, batch[..|batch| - 1]);
      assert batch == batch[..|batch| - 1] + [batch[|batch| - 1]];
    }
  }

  lemma {:induction false} SurvivorsMean(ds: seq<Doomed>, refused: map<string, string>)
    ensures forall d :: d in Survivors(ds, refused) <==> d in ds && !Refuses(refused, d)
  {
    hide Refuses;
    if ds != [] {
      SurvivorsMean(ds[..|ds| - 1], refused);
      assert ds == ds[..|ds| - 1] + [ds[|ds| - 1]];
    }
  }

  // ---- One batch, one purge ----

  function RunBatch(w: World, batch: seq<Doomed>, f: Faults): End {
    if f.cancelledBefore then End(w, [], [], true)
    else
      var w1 := ActAll(w, f.before);
      if f.recheckErr.Some? then End(w1, AllFailed(batch, "store: " + f.recheckErr.value), [], false)
      else EraseLive(w1, Live(w1, batch), Spared(w1, batch), f)
  }

  function EraseLive(w: World, live: seq<Doomed>, events: seq<Event>, f: Faults): End {
    if live == [] then End(w, events, [], false)
    else
      match f.answer
      case CallFailed(gone, msg) =>
        var w1 := EraseObjects(w, gone * KeySet(live));
        if f.cancelledInCall then End(w1, events, [], true)
        else End(w1, events + AllFailed(live, "s3: " + msg), [], false)
      case Answered(refused) =>
        EraseRows(EraseObjects(w, KeySet(live) - refused.Keys), Survivors(live, refused), events + Refusals(live, refused), f)
  }

  /** The originals of the survivors are gone: their rows must go too. */
  function EraseRows(w: World, survivors: seq<Doomed>, events: seq<Event>, f: Faults): End {
    if survivors == [] then End(w, events, [], false)
    else
      var w1 := ActAll(RemoveThumbs(w, PathSet(survivors) - f.stuck), f.during);
      if f.storeErr.Some? then End(w1, events + AllFailed(survivors, "store: " + f.storeErr.value), [], false)
      else End(DeleteRows(w1, BaseSet(survivors)), events + AllDone(survivors), survivors, false)
  }

  function Take(photos: seq<Doomed>): seq<Doomed> {
    if |photos| > BATCH then photos[..BATCH] else photos
  }

  /** The purge of the rest of the list, from batch b on. */
  function RunPurge(w: World, photos: seq<Doomed>, faults: nat -> Faults, b: nat): End
    decreases |photos|
  {
    if photos == [] then End(w, [], [], false)
    else
      var batch := Take(photos);
      var e := RunBatch(w, batch, faults(b));
      if e.cancelled then e
      else
        var rest := RunPurge(e.w, photos[|batch|..], faults, b + 1);
        End(rest.w, e.events + rest.events, e.erased + rest.erased, rest.cancelled)
  }

  // ---- Accounting ----

  /** The photos with an outcome, with multiplicity. */
  ghost function Told(events: seq<Event>): multiset<string> {
    multiset(Status.Items(events))
  }

  ghost function Count(ds: seq<Doomed>): multiset<string> {
    multiset(Bases(ds))
  }

  lemma TellAppend(a: seq<Event>, b: seq<Event>)
    ensures Told(a + b) == Told(a) + Told(b)
    ensures Status.DoneItems(a + b) == Status.DoneItems(a) + Status.DoneItems(b)
    ensures Status.BytesDone(a + b) == Status.BytesDone(a) + Status.BytesDone(b)
  {
    Status.ItemsAppend(a, b);
  }

  /** One more failure or skip. */
  lemma TellOne(a: seq<Event>, ev: Event)
    requires ev.ItemFailed? || ev.Skip?
    ensures Told(a + [ev]) == Told(a) + multiset{ev.keyBase}
    ensures Status.DoneItems(a + [ev]) == Status.DoneItems(a) && Status.BytesDone(a + [ev]) == Status.BytesDone(a)
  {
    assert (a + [ev])[..|a|] == a;
  }

  lemma {:induction false} BasesSplit(a: seq<Doomed>, b: seq<Doomed>)
    ensures Bases(a + b) == Bases(a) + Bases(b) && Sizes(a + b) == Sizes(a) + Sizes(b)
  {
    if b == [] {
      assert a + b == a;
    } else {
      BasesSplit(a, b[..|b| - 1]);
      assert (a + b)[..|a + b| - 1] == a + b[..|b| - 1];
    }
  }

  lemma CountOne(ds: seq<Doomed>, d: Doomed)
    ensures Count(ds + [d]) == Count(ds) + multiset{d.keyBase}
  {
    assert (ds + [d])[..|ds|] == ds;
  }

  /** Events that tell of all photos but the rest, none of them done. */
  ghost predicate Tells(events: seq<Event>, rest: multiset<string>, all: multiset<string>) {
    Told(events) + rest == all && Status.DoneItems(events) == [] && Status.BytesDone(events) == 0
  }

  lemma {:induction false} FailedTells(ds: seq<Doomed>, msg: string)
    ensures Tells(AllFailed(ds, msg), multiset{}, Count(ds))
  {
    hide Told, Count, Status.Items, Status.DoneItems, Status.BytesDone;
    NothingTold();
    if ds != [] {
      FailedTells(ds[..|ds| - 1], msg);
      TellOne(AllFailed(ds[..|ds| - 1], msg), Status.ItemFailed(ds[|ds| - 1].keyBase, msg));
      CountOne(ds[..|ds| - 1], ds[|ds| - 1]);
      assert ds == ds[..|ds| - 1] + [ds[|ds| - 1]];
    }
  }

  lemma TellDone(a: seq<Event>, base: string, bytes: nat)
    ensures var ev := Status.ItemDone(base, bytes);
      && Told(a + [ev]) == Told(a) + multiset{base}
      && Status.DoneItems(a + [ev]) == Status.DoneItems(a) + [base]
      && Status.BytesDone(a + [ev]) == Status.BytesDone(a) + bytes
  {
    assert (a + [Status.ItemDone(base, bytes)])[..|a|] == a;
  }

  lemma {:induction false} DoneTells(ds: seq<Doomed>)
    ensures Told(AllDone(ds)) == Count(ds) && Status.DoneItems(AllDone(ds)) == Bases(ds) && Status.BytesDone(AllDone(ds)) == Sizes(ds)
  {
    hide Told, Count, Status.Items, Status.DoneItems, Status.BytesDone;
    NothingTold();
    if ds != [] {
      var d := ds[|ds| - 1];
      DoneTells(ds[..|ds| - 1]);
      TellDone(AllDone(ds[..|ds| - 1]), d.keyBase, d.jpegSize + d.rafSize);
      CountOne(ds[..|ds| - 1], d);
      assert ds == ds[..|ds| - 1] + [d];
    }
  }

  lemma {:induction false} SparedTells(w: World, batch: seq<Doomed>)
    ensures Tells(Spared(w, batch), Count(Live(w, batch)), Count(batch))
  {
    hide Told, Count, StillDiscarded, Status.Items, Status.DoneItems, Status.BytesDone;
    NothingTold();
    if batch != [] {
      var d := batch[|batch| - 1];
      SparedTells(w, batch[..|batch| - 1]);
      CountOne(batch[..|batch| - 1], d);
      assert batch == batch[..|batch| - 1] + [d];
      if StillDiscarded(w, d.keyBase) {
        CountOne(Live(w, batch[..|batch| - 1]), d);
        assert Spared(w, batch) == Spared(w, batch[..|batch| - 1]);
      } else {
        TellOne(Spared(w, batch[..|batch| - 1]), Status.Skip(d.keyBase));
        assert Live(w, batch) == Live(w, batch[..|batch| - 1]);
      }
    }
  }

  lemma RefusalOf(refused: map<string, string>, d: Doomed)
    ensures Refuses(refused, d) ==> Refusal(refused, d).ItemFailed? && Refusal(refused, d).keyBase == d.keyBase
  {
  }

  lemma {:induction false} RefusalsTell(ds: seq<Doomed>, refused: map<string, string>)
    ensures Tells(Refusals(ds, refused), Count(Survivors(ds, refused)), Count(ds))
  {
    hide Told, Count, Refusal, Refuses, Status.Items, Status.DoneItems, Status.BytesDone;
    NothingTold();
    if ds != [] {
      var d := ds[|ds| - 1];
      assert Refuses(refused, d) ==> Refusal(refused, d).ItemFailed? && Refusal(refused, d).keyBase == d.keyBase by { RefusalOf(refused, d); }
      RefusalsTell(ds[..|ds| - 1], refused);
      CountOne(ds[..|ds| - 1], d);
      assert ds == ds[..|ds| - 1] + [d];
      if Refuses(refused, d) {
        TellOne(Refusals(ds[..|ds| - 1], refused), Refusal(refused, d));
        assert Survivors(ds, refused) == Survivors(ds[..|ds| - 1], refused);
      } else {
        CountOne(Survivors(ds[..|ds| - 1], refused), d);
        assert Refusals(ds, refused) == Refusals(ds[..|ds| - 1], refused);
      }
    }
  }

  /** The events of a stretch of purge account for the photos it was given: one
      outcome each, unless it was cancelled; "done" for exactly the erased ones,
      with their sizes. */
  ghost predicate Accounts(photos: multiset<string>, e: End) {
    && Told(e.events) <= photos
    && (!e.cancelled ==> Told(e.events) == photos)
    && Status.DoneItems(e.events) == Bases(e.erased)
    && Status.BytesDone(e.events) == Sizes(e.erased)
  }

  lemma BatchAccounts(w: World, batch: seq<Doomed>, f: Faults)
    ensures Accounts(Count(batch), RunBatch(w, batch, f))
  {
    hide ActAll, EraseLive, Told, Count, Live, Spared, AllFailed;
    NothingTold();
    if !f.cancelledBefore {
      var w1 := ActAll(w, f.before);
      if f.recheckErr.Some? {
        FailedTells(batch, "store: " + f.recheckErr.value);
      } else {
        SparedTells(w1, batch);
        LiveAccounts(w1, Count(batch), Live(w1, batch), Spared(w1, batch), f);
      }
    }
  }

  lemma NothingTold()
    ensures Told([]) == multiset{} && Status.DoneItems([]) == [] && Status.BytesDone([]) == 0 && Count([]) == multiset{}
  {
  }

  lemma LiveAccounts(w: World, all: multiset<string>, live: seq<Doomed>, spared: seq<Event>, f: Faults)
    requires Tells(spared, Count(live), all)
    ensures Accounts(all, EraseLive(w, live, spared, f))
  {
    hide EraseObjects, EraseRows, KeySet, Told, Count, AllFailed, Refusals, Survivors;
    NothingTold();
    if live != [] {
      match f.answer
      case CallFailed(gone, msg) =>
        FailedTells(live, "s3: " + msg);
        TellAppend(spared, AllFailed(live, "s3: " + msg));
      case Answered(refused) =>
        RefusalsTell(live, refused);
        TellAppend(spared, Refusals(live, refused));
        RowsAccount(EraseObjects(w, KeySet(live) - refused.Keys), all, Survivors(live, refused), spared + Refusals(live, refused), f);
    }
  }

  lemma RowsAccount(w: World, all: multiset<string>, survivors: seq<Doomed>, events: seq<Event>, f: Faults)
    requires Tells(events, Count(survivors), all)
    ensures Accounts(all, EraseRows(w, survivors, events, f))
  {
    hide ActAll, DeleteRows, RemoveThumbs, PathSet, BaseSet, Told, Count, AllFailed, AllDone;
    NothingTold();
    if survivors != [] {
      if f.storeErr.Some? {
        FailedTells(survivors, "store: " + f.storeErr.value);
        TellAppend(events, AllFailed(survivors, "store: " + f.storeErr.value));
      } else {
        DoneTells(survivors);
        TellAppend(events, AllDone(survivors));
      }
    }
  }

  /** Every photo of the list gets exactly one outcome unless the purge is
      cancelled, and then at most one; the freed bytes are those of the photos
      erased. */
  lemma {:induction false} PurgeAccounts(w: World, photos: seq<Doomed>, faults: nat -> Faults, b: nat)
    ensures Accounts(Count(photos), RunPurge(w, photos, faults, b))
    decreases |photos|
  {
    hide RunBatch, Told, Take, Count, Accounts, Status.DoneItems, Status.BytesDone, Bases, Sizes;
    if photos == [] {
      NothingToPurge(w);
    } else {
      TakeSome(photos);
      var batch := Take(photos);
      var e := RunBatch(w, batch, faults(b));
      BatchAccounts(w, batch, faults(b));
      if e.cancelled {
        CancelledAccounts(photos, |batch|, e);
      } else {
        PurgeAccounts(e.w, photos[|batch|..], faults, b + 1);
        JoinedAccounts(photos, |batch|, e, RunPurge(e.w, photos[|batch|..], faults, b + 1));
      }
    }
  }

  lemma NothingToPurge(w: World)
    ensures Accounts(Count([]), End(w, [], [], false))
  {
  }

  lemma CancelledAccounts(photos: seq<Doomed>, n: nat, e: End)
    requires n <= |photos| && e.cancelled && Accounts(Count(photos[..n]), e)
    ensures Accounts(Count(photos), e)
  {
    hide Told;
    assert photos == photos[..n] + photos[n..];
    BasesSplit(photos[..n], photos[n..]);
  }

  lemma JoinedAccounts(photos: seq<Doomed>, n: nat, e: End, rest: End)
    requires n <= |photos| && !e.cancelled && Accounts(Count(photos[..n]), e) && Accounts(Count(photos[n..]), rest)
    ensures Accounts(Count(photos), End(rest.w, e.events + rest.events, e.erased + rest.erased, rest.cancelled))
  {
    hide Told, Bases, Sizes;
    assert photos == photos[..n] + photos[n..];
    BasesSplit(photos[..n], photos[n..]);
    TellAppend(e.events, rest.events);
    BasesSplit(e.erased, rest.erased);
  }

  /** Only outcomes, no news about the run. */
  ghost predicate Outcomes(events: seq<Event>) {
    forall ev :: ev in events ==> ev.Item?()
  }

  lemma {:induction false} ReportsOutcomes(ds: seq<Doomed>, msg: string)
    ensures Outcomes(AllFailed(ds, msg)) && Outcomes(AllDone(ds))
  {
    if ds != [] {
      ReportsOutcomes(ds[..|ds| - 1], msg);
    }
  }

  lemma {:induction false} ChoicesOutcomes(w: World, ds: seq<Doomed>, refused: map<string, string>)
    ensures Outcomes(Spared(w, ds)) && Outcomes(Refusals(ds, refused))
  {
    hide StillDiscarded;
    if ds != [] {
      ChoicesOutcomes(w, ds[..|ds| - 1], refused);
    }
  }

  lemma BatchOutcomes(w: World, batch: seq<Doomed>, f: Faults)
    ensures Outcomes(RunBatch(w, batch, f).events)
  {
    hide ActAll, Live, Spared, Refusals, AllFailed, AllDone, EraseObjects, RemoveThumbs, KeySet, PathSet, BaseSet, Survivors, DeleteRows;
    var w1 := ActAll(w, f.before);
    var live := Live(w1, batch);
    if f.recheckErr.Some? {
      ReportsOutcomes(batch, "store: " + f.recheckErr.value);
    }
    ChoicesOutcomes(w1, batch, map[]);
    match f.answer
    case CallFailed(_, msg) => ReportsOutcomes(live, "s3: " + msg);
    case Answered(refused) =>
      ChoicesOutcomes(w1, live, refused);
      var survivors := Survivors(live, refused);
      ReportsOutcomes(survivors, "store: " + if f.storeErr.Some? then f.storeErr.value else "");
  }

  lemma {:induction false} PurgeOutcomes(w: World, photos: seq<Doomed>, faults: nat -> Faults, b: nat)
    ensures Outcomes(RunPurge(w, photos, faults, b).events)
    decreases |photos|
  {
    hide RunBatch, Take;
    if photos != [] {
      TakeSome(photos);
      var batch := Take(photos);
      var e := RunBatch(w, batch, faults(b));
      BatchOutcomes(w, batch, faults(b));
      PurgeOutcomes(e.w, photos[|batch|..], faults, b + 1);
    }
  }

  lemma {:induction false} TotalStays(s: Status.Snapshot, log: seq<Event>)
    requires forall ev :: ev in log ==> !ev.Total?
    ensures Status.Replay(s, log).total == s.total
  {
    if log != [] {
      TotalStays(s, log[..|log| - 1]);
    }
  }

  /** The snapshot a purge ends with. */
  lemma PurgeSnapshot(w: World, photos: seq<Doomed>, faults: nat -> Faults, start: Status.Snapshot, finalPhase: string)
    requires Status.Fresh?(start) && start.total == |photos|
    ensures var e := RunPurge(w, photos, faults, 0);
      var log := [Status.Phase("purging")] + e.events + [Status.Phase(finalPhase)];
      var end := Status.Replay(start, log);
      && end.phase == finalPhase && end.total == |photos|
      && end.processed + end.skipped + end.failed <= end.total
      && (!e.cancelled ==> end.processed + end.skipped + end.failed == end.total)
      && end.processed == |e.erased| && end.bytesFreed == Sizes(e.erased)
      && end.errors == Status.LastOf(Status.Failures(log), Status.MAX_ERRORS_KEPT)
  {
    hide RunPurge, Bases, Sizes, Status.Failures;
    var e := RunPurge(w, photos, faults, 0);
    var first, last := [Status.Phase("purging")], [Status.Phase(finalPhase)];
    var log := first + e.events + last;
    PurgeAccounts(w, photos, faults, 0);
    PurgeOutcomes(w, photos, faults, 0);
    Status.ReplayAccounts(start, log);
    Status.ReplayTotal(start, log);
    TotalStays(start, log);
    PhasesTellNothing("purging");
    PhasesTellNothing(finalPhase);
    Status.ItemsAppend(first, e.events);
    Status.ItemsAppend(first + e.events, last);
    Counted(photos, Status.Items(e.events));
    BasesLength(photos);
    BasesLength(e.erased);
  }

  lemma PhasesTellNothing(phase: string)
    ensures var log := [Status.Phase(phase)];
      Status.Items(log) == [] && Status.DoneItems(log) == [] && Status.BytesDone(log) == 0
  {
    assert [Status.Phase(phase)][..0] == [];
  }

  lemma Counted(photos: seq<Doomed>, items: seq<string>)
    ensures multiset(items) <= Count(photos) ==> |items| <= |Bases(photos)|
    ensures multiset(items) == Count(photos) ==> |items| == |Bases(photos)|
  {
    assert |multiset(items)| == |items|;
    assert |Count(photos)| == |Bases(photos)|;
    if multiset(items) <= Count(photos) {
      assert Count(photos) == multiset(items) + (Count(photos) - multiset(items));
    }
  }

  lemma {:induction false} BasesLength(ds: seq<Doomed>)
    ensures |Bases(ds)| == |ds|
  {
    if ds != [] {
      BasesLength(ds[..|ds| - 1]);
    }
  }

  lemma TakeSome(photos: seq<Doomed>)
    requires photos != []
    ensures 0 < |Take(photos)| <= |photos| && Take(photos) == photos[..|Take(photos)|] && |Take(photos)| <= BATCH
  {
  }
}
