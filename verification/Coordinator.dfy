/** The coordinator object and its purge, in the form of the program: fields
    changed in place, loops over batches and keys (worker/coordinator.go,
    worker/purge.go, `DeletePhotos` of catalog/query.go, `ReconcileMissing` of
    catalog/catalog.go). Faults are arguments. */
module Coordinator {
  import opened Wrappers
  import opened CatalogStore
  import opened World
  import opened Purge
  import Lex
  import Status

  const DEFAULT_WORKERS := 2
  const MAX_WORKERS := 32
  const CHUNK := 500

  datatype Refused = RunActive | StoreFailed(msg: string) | CountMismatch(expected: int, found: nat)

  class Coordinator {
    const defWorkers: nat

    var bucket: map<string, ObjectRef>
    var table: Table
    var thumbs: set<string>
    var albums: map<nat, set<nat>>

    var running: bool
    var cancellable: bool
    var cancelled: bool
    var phase: string
    var events: seq<Event>

    function View(): World
      reads this
    {
      World(bucket, table, thumbs, albums)
    }

    constructor (w: World, defaultWorkers: int)
      ensures View() == w && !running && !cancellable && phase == "idle" && events == []
      ensures defWorkers == if defaultWorkers <= 0 then 2 else defaultWorkers
    {
      defWorkers := if defaultWorkers <= 0 then DEFAULT_WORKERS else defaultWorkers;
      bucket, table, thumbs, albums := w.bucket, w.table, w.thumbs, w.albums;
      running, cancellable, cancelled, phase, events := false, false, false, "idle", [];
    }

    /** At most one run: a second start is refused and changes nothing. */
    method Start(workers: int) returns (r: Result<nat, Refused>)
      requires defWorkers > 0
      modifies this
      ensures View() == old(View()) && running
      ensures r.Err? <==> old(running)
      ensures r.Err? ==> r.error == RunActive && phase == old(phase) && events == old(events) && cancelled == old(cancelled)
      ensures r.Ok? && workers <= 0 ==> r.value == if defWorkers <= 32 then defWorkers else 32
      ensures r.Ok? && workers > 0 ==> r.value == if workers <= 32 then workers else 32
      ensures r.Ok? ==> 1 <= r.value <= 32
      ensures r.Ok? ==> cancellable && !cancelled && phase == "listing" && events == []
    {
      if running {
        return Err(RunActive);
      }
      var n := workers;
      if n <= 0 {
        n := defWorkers;
      }
      if n > MAX_WORKERS {
        n := MAX_WORKERS;
      }
      running, cancellable, cancelled, phase, events := true, true, false, "listing", [];
      return Ok(n);
    }

    /** The pile is recomputed here; a store that cannot tell it, a count other than
        the one displayed, or an active run delete nothing and start nothing. */
    method StartPurge(expected: int, storeErr: Option<string>) returns (r: Result<seq<Doomed>, Refused>)
      modifies this
      ensures View() == old(View())
      ensures r == Err(RunActive) <==> old(running)
      ensures r.Ok? ==> IsDiscardPile(View(), r.value) && |r.value| == expected
      ensures r.Ok? ==> running && cancellable && !cancelled && phase == "purging" && events == []
      ensures r.Err? ==> running == old(running) && phase == old(phase) && events == old(events)
      ensures r.Err? ==> cancellable == old(cancellable) && cancelled == old(cancelled)
      ensures !old(running) && storeErr.Some? <==> r == Err(StoreFailed(if storeErr.Some? then storeErr.value else ""))
      ensures !old(running) && storeErr.None? ==>
        (r.Ok? <==> |DiscardedBases(View())| == expected)
      ensures r.Err? && r.error.CountMismatch? ==> r.error.found == |DiscardedBases(View())| != expected
    {
      if running {
        return Err(RunActive);
      }
      if storeErr.Some? {
        return Err(StoreFailed(storeErr.value));
      }
      var photos := ListDiscarded();
      PileSize(View(), photos);
      if |photos| != expected {
        return Err(CountMismatch(expected, |photos|));
      }
      running, cancellable, cancelled, phase, events := true, true, false, "purging", [];
      return Ok(photos);
    }

    /** A request to stop, heard only while something runs. */
    method Cancel()
      modifies this`cancelled
      ensures cancelled == (old(cancelled) || cancellable)
    {
      if cancellable {
        cancelled := true;
      }
    }

    method ListDiscarded() returns (photos: seq<Doomed>)
      ensures IsDiscardPile(View(), photos)
    {
      hide Lex.Sort, Lex.Less, Doom;
      var rows := table.rows;
      var todo := rows.Keys;
      var bases: seq<string> := [];
      while todo != {}
        invariant todo <= rows.Keys
        invariant forall b :: b in bases <==> b in rows && b !in todo && rows[b].discarded
        invariant forall i, j :: 0 <= i < j < |bases| ==> bases[i] != bases[j]
        decreases |todo|
      {
        var b :| b in todo;
        todo := todo - {b};
        if rows[b].discarded {
          bases := bases + [b];
        }
      }
      var sorted := Lex.Sort(bases);
      Lex.SortAscends(bases);
      forall b
        ensures b in sorted <==> b in bases
      {
        Lex.SortMembers(bases, b);
      }
      photos := [];
      var i := 0;
      while i < |sorted|
        invariant 0 <= i <= |sorted| && |photos| == i
        invariant forall j :: 0 <= j < |sorted| ==> sorted[j] in rows && rows[sorted[j]].discarded
        invariant forall j :: 0 <= j < i ==> photos[j] == Doom(sorted[j], rows[sorted[j]]) && photos[j].keyBase == sorted[j]
      {
        DoomBase(sorted[i], rows[sorted[i]]);
        photos := photos + [Doom(sorted[i], rows[sorted[i]])];
        i := i + 1;
      }
      forall k | k in DiscardedBases(View())
        ensures exists i :: 0 <= i < |photos| && photos[i].keyBase == k
      {
        assert k in sorted;
        var j :| 0 <= j < |sorted| && sorted[j] == k;
        assert photos[j].keyBase == k;
      }
    }

    /** Rows go chunk by chunk: a failure leaves the chunks before it deleted. */
    method DeletePhotos(keyBases: seq<string>, failsAt: Option<nat>) returns (ok: bool)
      modifies this`table, this`albums
      ensures ok <==> failsAt.None? || failsAt.value * 500 >= |keyBases|
      ensures View() == DeleteRows(old(View()), ToSet(keyBases[..if ok then |keyBases| else failsAt.value * 500]))
    {
      var start := 0;
      var chunk := 0;
      assert ToSet(keyBases[..0]) == {};
      DeleteNothing(View());
      while start < |keyBases|
        invariant 0 <= start <= |keyBases| && 0 <= chunk && (start == chunk * CHUNK || start == |keyBases|)
        invariant start < |keyBases| ==> failsAt.Some? ==> failsAt.value >= chunk
        invariant start == |keyBases| ==> failsAt.Some? ==> failsAt.value * CHUNK >= |keyBases|
        invariant bucket == old(bucket) && thumbs == old(thumbs)
        invariant View() == DeleteRows(old(View()), ToSet(keyBases[..start]))
      {
        if failsAt == Some(chunk) {
          return false;
        }
        var end := if start + CHUNK <= |keyBases| then start + CHUNK else |keyBases|;
        var batch := keyBases[start..end];
        var gone := ToSet(batch);
        DeleteMore(old(View()), ToSet(keyBases[..start]), gone);
        assert ToSet(keyBases[..end]) == ToSet(keyBases[..start]) + gone by {
          assert keyBases[..end] == keyBases[..start] + batch;
        }
        var ids := Ids(table, gone);
        table := table.(rows := table.rows - gone);
        albums := Cascade(albums, ids);
        start := end;
        chunk := chunk + 1;
      }
      assert keyBases[..|keyBases|] == keyBases;
      return true;
    }

    /** Removing the rows whose objects a complete listing did not show; `stuck` are
        the thumbnails that cannot be removed. */
    method ReconcileMissing(present: set<string>, prefix: string, stuck: set<string>, failsAt: Option<nat>) returns (r: Result<nat, string>)
      modifies this`table, this`albums, this`thumbs
      ensures r.Ok? ==> View() == Reconciled(old(View()), present, prefix, stuck) && r.value == |Missing(old(View()), present, prefix)|
      ensures r.Err? ==> exists part :: part <= Missing(old(View()), present, prefix) && View() == DeleteRows(old(View()), part)
      ensures failsAt.None? ==> r.Ok?
      ensures present == {} ==> r == Ok(0) && View() == old(View())
      ensures r.Ok? ==> table.rows.Keys <= old(table).rows.Keys && r.value == |old(table).rows.Keys - table.rows.Keys|
      ensures forall b :: b in old(table).rows ==>
        var jpeg := old(table).rows[b].photo.jpeg;
        && (b in table.rows ==> table.rows[b] == old(table).rows[b])
        && (b !in table.rows ==> present != {} && !LocalEtag(jpeg.etag) && prefix <= jpeg.key && b !in present)
        && (r.Ok? && present != {} && !LocalEtag(jpeg.etag) && prefix <= jpeg.key && b !in present ==> b !in table.rows)
      ensures r.Err? ==> thumbs == old(thumbs)
    {
      hide LocalEtag, Doom, Paths, Missing, DeleteRows, PathsOf;
      ghost var before := View();
      ReconciledMeans(before, present, prefix, stuck);
      EmptyListingKeeps(before, prefix, stuck);
      RemovedCount(before, present, prefix, stuck);
      DeleteNothing(before);
      if present == {} {
        return Ok(0);
      }
      var rows := table.rows;
      var gone := ListGone(present, prefix);
      if |gone| == 0 {
        KeepsAll(before, present, prefix, stuck);
        return Ok(0);
      }
      assert gone[..|gone|] == gone;
      var ok := DeletePhotos(gone, failsAt);
      if !ok {
        PartMeans(before, present, prefix, ToSet(gone[..failsAt.value * CHUNK]));
        return Err("delete photos");
      }
      RemoveThumbFiles(gone, rows, stuck, before);
      return Ok(|gone|);
    }

    /** The rows that a complete listing should have shown and did not. */
    method ListGone(present: set<string>, prefix: string) returns (gone: seq<string>)
      requires present != {}
      ensures ToSet(gone) == Missing(View(), present, prefix) && |gone| == |Missing(View(), present, prefix)|
      ensures forall b :: b in gone ==> b in table.rows
    {
      hide LocalEtag;
      ghost var missing := Missing(View(), present, prefix);
      var rows := table.rows;
      var todo := rows.Keys;
      gone := [];
      while todo != {}
        invariant todo <= rows.Keys
        invariant forall b :: b in gone <==> b in missing && b !in todo
        invariant forall i, j :: 0 <= i < j < |gone| ==> gone[i] != gone[j]
        decreases |todo|
      {
        var b :| b in todo;
        todo := todo - {b};
        var jpeg := rows[b].photo.jpeg;
        if LocalEtag(jpeg.etag) || !(prefix <= jpeg.key) {
          continue;
        }
        if b !in present {
          gone := gone + [b];
        }
      }
      Distinct(gone, missing);
    }

    /** Thumbnails second: a failed removal only leaves an orphan file. */
    method RemoveThumbFiles(gone: seq<string>, rows: map<string, Row>, stuck: set<string>, ghost before: World)
      requires rows == before.table.rows && thumbs == before.thumbs && forall b :: b in gone ==> b in rows
      modifies this`thumbs
      ensures thumbs == before.thumbs - (PathsOf(before, ToSet(gone)) - stuck)
    {
      hide Doom, Paths;
      var i := 0;
      NoPaths(before);
      assert ToSet(gone[..0]) == {};
      while i < |gone|
        invariant 0 <= i <= |gone|
        invariant thumbs == before.thumbs - (PathsOf(before, ToSet(gone[..i])) - stuck)
      {
        PathsMore(before, ToSet(gone[..i]), gone[i]);
        PathsAre(gone[i], rows[gone[i]]);
        assert ToSet(gone[..i + 1]) == ToSet(gone[..i]) + {gone[i]} by {
          assert gone[..i + 1] == gone[..i] + [gone[i]];
        }
        RemoveThumbFile(ThumbPath(gone[i]), stuck);
        if rows[gone[i]].thumbPath != "" {
          RemoveThumbFile(rows[gone[i]].thumbPath, stuck);
        }
        i := i + 1;
      }
      assert gone[..i] == gone;
    }

    /** A removal that fails is logged and passed over. */
    method RemoveThumbFile(path: string, stuck: set<string>)
      modifies this`thumbs
      ensures thumbs == old(thumbs) - ({path} - stuck)
    {
      if path !in stuck {
        thumbs := thumbs - {path};
      }
    }

    method Finish(finalPhase: string)
      modifies this`running, this`cancellable, this`phase, this`events
      ensures !running && !cancellable && phase == finalPhase && events == old(events) + [Status.Phase(finalPhase)]
    {
      events := events + [Status.Phase(finalPhase)];
      phase := finalPhase;
      running := false;
      cancellable := false;
    }

    /** The photos of a batch that are still rejected; the others are spared. */
    method KeepLive(batch: seq<Doomed>) returns (live: seq<Doomed>)
      modifies this`events
      ensures live == Live(View(), batch) && events == old(events) + Spared(View(), batch)
    {
      hide StillDiscarded;
      live := [];
      var i := 0;
      while i < |batch|
        invariant 0 <= i <= |batch|
        invariant live == Live(View(), batch[..i]) && events == old(events) + Spared(View(), batch[..i])
      {
        assert batch[..i + 1][..i] == batch[..i];
        if StillDiscarded(View(), batch[i].keyBase) {
          live := live + [batch[i]];
        } else {
          events := events + [Status.Skip(batch[i].keyBase)];
        }
        i := i + 1;
      }
      assert batch[..i] == batch;
    }

    method FailAll(ds: seq<Doomed>, msg: string)
      modifies this`events
      ensures events == old(events) + AllFailed(ds, msg)
    {
      var i := 0;
      while i < |ds|
        invariant 0 <= i <= |ds|
        invariant events == old(events) + AllFailed(ds[..i], msg)
      {
        assert ds[..i + 1][..i] == ds[..i];
        events := events + [Status.ItemFailed(ds[i].keyBase, msg)];
        i := i + 1;
      }
      assert ds[..i] == ds;
    }

    /** The keys of one delete call: at most two a photo. */
    method CollectKeys(live: seq<Doomed>) returns (keys: seq<string>)
      ensures ToSet(keys) == KeySet(live) && |keys| <= 2 * |live|
    {
      keys := [];
      var i := 0;
      while i < |live|
        invariant 0 <= i <= |live| && |keys| <= 2 * i
        invariant ToSet(keys) == KeySet(live[..i])
      {
        KeySetMore(live, i);
        keys := keys + [live[i].jpegKey];
        if live[i].rafKey != "" {
          keys := keys + [live[i].rafKey];
        }
        i := i + 1;
      }
      assert live[..i] == live;
    }

    /** The photos all of whose keys are gone. */
    method KeepSurvivors(live: seq<Doomed>, refused: map<string, string>) returns (survivors: seq<Doomed>)
      modifies this`events
      ensures survivors == Survivors(live, refused) && events == old(events) + Refusals(live, refused)
    {
      survivors := [];
      var i := 0;
      while i < |live|
        invariant 0 <= i <= |live|
        invariant survivors == Survivors(live[..i], refused) && events == old(events) + Refusals(live[..i], refused)
      {
        assert live[..i + 1][..i] == live[..i];
        var p := live[i];
        if p.jpegKey in refused {
          events := events + [Status.ItemFailed(p.keyBase, "s3 " + p.jpegKey + ": " + refused[p.jpegKey])];
        } else if p.rafKey != "" && p.rafKey in refused {
          events := events + [Status.ItemFailed(p.keyBase, "s3 " + p.rafKey + ": " + refused[p.rafKey])];
        } else {
          survivors := survivors + [p];
        }
        i := i + 1;
      }
      assert live[..i] == live;
    }

    method RemoveThumbsOf(ds: seq<Doomed>, stuck: set<string>)
      modifies this`thumbs
      ensures thumbs == old(thumbs) - (PathSet(ds) - stuck)
    {
      var i := 0;
      assert PathSet([]) == {} && ds[..0] == [];
      while i < |ds|
        invariant 0 <= i <= |ds|
        invariant thumbs == old(thumbs) - (PathSet(ds[..i]) - stuck)
      {
        PathSetMore(ds, i);
        RemoveThumbFile(ThumbPath(ds[i].keyBase), stuck);
        if ds[i].thumbPath != "" {
          RemoveThumbFile(ds[i].thumbPath, stuck);
        }
        i := i + 1;
      }
      assert ds[..i] == ds;
    }

    method ReportDone(ds: seq<Doomed>)
      modifies this`events
      ensures events == old(events) + AllDone(ds)
    {
      var i := 0;
      while i < |ds|
        invariant 0 <= i <= |ds|
        invariant events == old(events) + AllDone(ds[..i])
      {
        assert ds[..i + 1][..i] == ds[..i];
        events := events + [Status.ItemDone(ds[i].keyBase, ds[i].jpegSize + ds[i].rafSize)];
        i := i + 1;
      }
      assert ds[..i] == ds;
    }

    method CollectBases(ds: seq<Doomed>) returns (bases: seq<string>)
      ensures |bases| == |ds| && ToSet(bases) == BaseSet(ds)
    {
      bases := seq(|ds|, i requires 0 <= i < |ds| => ds[i].keyBase);
      forall d | d in ds
        ensures d.keyBase in ToSet(bases)
      {
        var i :| 0 <= i < |ds| && ds[i] == d;
        assert bases[i] == d.keyBase;
      }
    }

    /** One round of the purge: originals, then thumbnails, then rows. */
    method PurgeBatch(batch: seq<Doomed>, f: Faults) returns (stopped: bool)
      requires |batch| <= BATCH
      modifies this`bucket, this`table, this`thumbs, this`albums, this`events
      ensures var e := RunBatch(old(View()), batch, f);
        View() == e.w && events == old(events) + e.events && stopped == e.cancelled
    {
      hide Act, Decide, Live, Spared, EraseLive, AllFailed;
      if f.cancelledBefore {
        return true;
      }
      Decisions(f.before);
      if f.recheckErr.Some? {
        FailAll(batch, "store: " + f.recheckErr.value);
        return false;
      }
      var live := KeepLive(batch);
      LiveShort(View(), batch);
      EraseAppends(View(), live, Spared(View(), batch), f);
      if |live| == 0 {
        return false;
      }
      stopped := EraseBatch(live, f);
    }

    /** The originals of the live photos go in one delete call. */
    method EraseBatch(live: seq<Doomed>, f: Faults) returns (stopped: bool)
      requires 0 < |live| <= BATCH
      modifies this`bucket, this`table, this`thumbs, this`albums, this`events
      ensures var e := EraseLive(old(View()), live, [], f);
        View() == e.w && events == old(events) + e.events && stopped == e.cancelled
    {
      hide Act, Doom, Refuses, KeySet, ToSet, EraseRows, AllFailed, Refusals, Survivors;
      var keys := CollectKeys(live);
      match f.answer {
        case CallFailed(gone, msg) =>
          bucket := bucket - gone * ToSet(keys);
          if f.cancelledInCall {
            return true;
          }
          FailAll(live, "s3: " + msg);
          return false;
        case Answered(refused) =>
          bucket := bucket - (ToSet(keys) - refused.Keys);
          var survivors := KeepSurvivors(live, refused);
          SurvivorsShort(live, refused);
          RowsAppend(View(), survivors, Refusals(live, refused), f);
          assert [] + Refusals(live, refused) == Refusals(live, refused);
          if |survivors| == 0 {
            return false;
          }
          PurgeSurvivors(survivors, f);
          return false;
      }
    }

    method PurgeSurvivors(survivors: seq<Doomed>, f: Faults)
      requires 0 < |survivors| <= BATCH
      modifies this`table, this`thumbs, this`albums, this`events
      ensures View() == EraseRows(old(View()), survivors, [], f).w
      ensures events == old(events) + EraseRows(old(View()), survivors, [], f).events
    {
      hide Act, Doom, PathSet, BaseSet, DeleteRows, ToSet, AllDone, AllFailed;
      RemoveThumbsOf(survivors, f.stuck);
      Decisions(f.during);
      var keyBases := CollectBases(survivors);
      assert keyBases[..|keyBases|] == keyBases;
      assert keyBases[..0] == [];
      NoElements();
      DeleteNothing(View());
      var ok := DeletePhotos(keyBases, if f.storeErr.Some? then Some(0) else None);
      if !ok {
        FailAll(survivors, "store: " + f.storeErr.value);
        return;
      }
      ReportDone(survivors);
    }

    /** The batches of a purge, one after the other. */
    method PurgeBatches(photos: seq<Doomed>, faults: nat -> Faults) returns (stopped: bool)
      modifies this`bucket, this`table, this`thumbs, this`albums, this`events
      ensures var e := RunPurge(old(View()), photos, faults, 0);
        View() == e.w && events == old(events) + e.events && stopped == e.cancelled
    {
      hide RunBatch, RunPurge, Take;
      ghost var whole := RunPurge(View(), photos, faults, 0);
      ghost var done: seq<Event> := [];
      var start := 0;
      var b := 0;
      while start < |photos|
        invariant 0 <= start <= |photos| && 0 <= b
        invariant events == old(events) + done
        invariant Continues(whole, done, RunPurge(View(), photos[start..], faults, b))
      {
        var end := if start + BATCH <= |photos| then start + BATCH else |photos|;
        var batch := photos[start..end];
        OneBatch(View(), photos, start, end, faults, b);
        ghost var rest := RunPurge(View(), photos[start..], faults, b);
        ghost var r := RunBatch(View(), batch, faults(b));
        stopped := PurgeBatch(batch, faults(b));
        if stopped {
          return;
        }
        Joined(whole, done, rest, r.events, RunPurge(View(), photos[end..], faults, b + 1));
        done := done + r.events;
        start := end;
        b := b + 1;
      }
      OneBatch(View(), photos, start, start, faults, b);
      return false;
    }

    /** The whole purge. It starts and ends with its phase; a bucket that cannot
        be opened, or a cancellation, ends it early. */
    method Purge(photos: seq<Doomed>, faults: nat -> Faults, bucketErr: Option<string>, cancelledAtEnd: bool)
      modifies this
      ensures var e := RunPurge(old(View()), photos, faults, 0);
        && (bucketErr.Some? ==> View() == old(View()) && phase == "error"
                                && events == old(events) + [Status.Phase("purging"), Status.Phase("error")])
        && (bucketErr.None? ==> View() == e.w && phase == (if e.cancelled || cancelledAtEnd then "cancelled" else "done")
                                && events == old(events) + [Status.Phase("purging")] + e.events + [Status.Phase(phase)])
      ensures !running && !cancellable
    {
      hide RunPurge;
      events := events + [Status.Phase("purging")];
      if bucketErr.Some? {
        Finish("error");
        return;
      }
      var stopped := PurgeBatches(photos, faults);
      Finish(if stopped || cancelledAtEnd then "cancelled" else "done");
    }

    /** A rating keeps the photo: it clears any reject. 0 drops the stars only. */
    method SetRating(keyBase: string, rating: int) returns (r: Result<bool, string>)
      modifies this`table
      ensures r.Err? <==> rating < 0 || rating > 5
      ensures r.Err? ==> table == old(table)
      ensures r.Ok? ==> r.value == (keyBase in old(table).rows) && OnlySelectionOf(keyBase, old(table), table)
      ensures r == Ok(true) ==> var row := table.rows[keyBase];
        row.rating == rating && row.discarded == (rating == 0 && old(table).rows[keyBase].discarded)
      ensures table == Decide(old(table), UserAction.SetRating(keyBase, rating))
    {
      if rating < 0 || rating > 5 {
        return Err("rating must be between 0 and 5");
      }
      if keyBase !in table.rows {
        return Ok(false);
      }
      var row := table.rows[keyBase];
      if rating > 0 {
        row := row.(rating := rating, discarded := false);
      } else {
        row := row.(rating := 0);
      }
      table := table.(rows := table.rows[keyBase := row]);
      return Ok(true);
    }

    /** A reject clears any rating; "" and "none" make the photo undecided. */
    method SetDecision(keyBase: string, decision: string) returns (r: Result<bool, string>)
      modifies this`table
      ensures r.Err? <==> decision !in ["discard", "", "none"]
      ensures r.Err? ==> table == old(table)
      ensures r.Ok? ==> r.value == (keyBase in old(table).rows) && OnlySelectionOf(keyBase, old(table), table)
      ensures r == Ok(true) ==> var row := table.rows[keyBase];
        row.discarded == (decision == "discard") && row.rating == if decision == "discard" then 0 else old(table).rows[keyBase].rating
      ensures table == Decide(old(table), UserAction.SetDecision(keyBase, decision))
    {
      if decision != "discard" && decision != "" && decision != "none" {
        return Err("decision must be discard or none");
      }
      if keyBase !in table.rows {
        return Ok(false);
      }
      var row := table.rows[keyBase];
      if decision == "discard" {
        row := row.(rating := 0, discarded := true);
      } else {
        row := row.(discarded := false);
      }
      table := table.(rows := table.rows[keyBase := row]);
      return Ok(true);
    }

    /** The environment: decisions made from the lightbox meanwhile. */
    method Decisions(actions: seq<UserAction>)
      modifies this`table
      ensures View() == ActAll(old(View()), actions)
    {
      var i := 0;
      while i < |actions|
        invariant 0 <= i <= |actions|
        invariant View() == ActAll(old(View()), actions[..i])
      {
        assert actions[..i + 1][..i] == actions[..i];
        match actions[i] {
          case SetRating(keyBase, rating) =>
            var answered := SetRating(keyBase, rating);
          case SetDecision(keyBase, decision) =>
            var answered := SetDecision(keyBase, decision);
        }
        i := i + 1;
      }
      assert actions[..i] == actions;
    }
  }

  /** Nothing differs but the rating and the decision of one row. */
  ghost predicate OnlySelectionOf(keyBase: string, t: Table, u: Table) {
    && u.nextId == t.nextId && u.rows.Keys == t.rows.Keys
    && forall k :: k in t.rows ==>
         if k == keyBase then u.rows[k].(rating := 0, discarded := false) == t.rows[k].(rating := 0, discarded := false)
         else u.rows[k] == t.rows[k]
  }

  /** A purge is `done` followed by `rest`. */
  ghost predicate Continues(whole: End, done: seq<Event>, rest: End) {
    whole.w == rest.w && whole.events == done + rest.events && whole.cancelled == rest.cancelled
  }

  lemma Joined(whole: End, done: seq<Event>, rest: End, next: seq<Event>, after: End)
    requires Continues(whole, done, rest) && Continues(rest, next, after)
    ensures Continues(whole, done + next, after)
  {
  }

  lemma OneBatch(w: World, photos: seq<Doomed>, start: nat, end: nat, faults: nat -> Faults, b: nat)
    requires start <= end == (if start + BATCH <= |photos| then start + BATCH else |photos|)
    ensures var rest := RunPurge(w, photos[start..], faults, b);
      if start == end then rest == End(w, [], [], false)
      else
        var e := RunBatch(w, photos[start..end], faults(b));
        if e.cancelled then rest == e
        else Continues(rest, e.events, RunPurge(e.w, photos[end..], faults, b + 1))
  {
    hide RunBatch;
    if start < end {
      assert Take(photos[start..]) == photos[start..end] && photos[start..][end - start..] == photos[end..];
    }
  }

  lemma EraseAppends(w: World, live: seq<Doomed>, events: seq<Event>, f: Faults)
    ensures var e := EraseLive(w, live, [], f);
      EraseLive(w, live, events, f) == End(e.w, events + e.events, e.erased, e.cancelled)
      && (live == [] ==> e.w == w && e.events == [] && !e.cancelled)
  {
    hide EraseObjects, KeySet, EraseRows, AllFailed, Refusals, Survivors;
    if live != [] && f.answer.Answered? {
      var refused := f.answer.refused;
      var w1 := EraseObjects(w, KeySet(live) - refused.Keys);
      RowsAppend(w1, Survivors(live, refused), Refusals(live, refused), f);
      RowsAppend(w1, Survivors(live, refused), events + Refusals(live, refused), f);
      assert [] + Refusals(live, refused) == Refusals(live, refused);
    }
  }

  lemma RowsAppend(w: World, survivors: seq<Doomed>, events: seq<Event>, f: Faults)
    ensures var e := EraseRows(w, survivors, [], f);
      EraseRows(w, survivors, events, f) == End(e.w, events + e.events, e.erased, e.cancelled)
      && (survivors == [] ==> e.w == w && e.events == [] && !e.cancelled) && !e.cancelled
  {
    hide ActAll, RemoveThumbs, PathSet, BaseSet, DeleteRows, AllFailed, AllDone;
  }

  lemma KeySetMore(ds: seq<Doomed>, i: nat)
    requires i < |ds|
    ensures KeySet(ds[..i + 1]) == KeySet(ds[..i]) + Keys(ds[i])
  {
    assert ds[..i + 1] == ds[..i] + [ds[i]];
    assert ds[i] in ds[..i + 1];
  }

  lemma PathSetMore(ds: seq<Doomed>, i: nat)
    requires i < |ds|
    ensures PathSet(ds[..i + 1]) == PathSet(ds[..i]) + Paths(ds[i])
  {
    assert ds[..i + 1] == ds[..i] + [ds[i]];
    assert ds[i] in ds[..i + 1];
  }

  lemma NoElements()
    ensures ToSet<string>([]) == {}
  {
  }

  /** A round never erases more photos than it was given. */
  lemma {:induction false} LiveShort(w: World, batch: seq<Doomed>)
    ensures |Live(w, batch)| <= |batch|
  {
    if batch != [] {
      LiveShort(w, batch[..|batch| - 1]);
    }
  }

  lemma {:induction false} SurvivorsShort(ds: seq<Doomed>, refused: map<string, string>)
    ensures |Survivors(ds, refused)| <= |ds|
  {
    if ds != [] {
      SurvivorsShort(ds[..|ds| - 1], refused);
    }
  }

  lemma DoomBase(b: string, row: Row)
    ensures Doom(b, row).keyBase == b
  {
  }

  lemma DeleteNothing(w: World)
    ensures DeleteRows(w, {}) == w
  {
    assert Ids(w.table, {}) == {};
    assert forall a :: a in w.albums ==> w.albums[a] - {} == w.albums[a];
    assert Cascade(w.albums, {}) == w.albums;
    assert w.table.rows - {} == w.table.rows;
  }

  lemma DeleteMore(w: World, a: set<string>, b: set<string>)
    ensures DeleteRows(DeleteRows(w, a), b) == DeleteRows(w, a + b)
  {
    var t := DeleteRows(w, a);
    assert w.table.rows - a - b == w.table.rows - (a + b);
    assert Ids(w.table, a) + Ids(t.table, b) == Ids(w.table, a + b);
    assert forall x :: x in w.albums ==> w.albums[x] - Ids(w.table, a) - Ids(t.table, b) == w.albums[x] - Ids(w.table, a + b);
  }

  lemma NoPaths(w: World)
    ensures PathsOf(w, {}) == {} && w.thumbs - {} == w.thumbs
  {
  }

  lemma PathsAre(keyBase: string, row: Row)
    ensures Paths(Doom(keyBase, row)) == {ThumbPath(keyBase)} + if row.thumbPath != "" then {row.thumbPath} else {}
  {
  }

  lemma PathsMore(w: World, a: set<string>, b: string)
    requires b in w.table.rows
    ensures PathsOf(w, a + {b}) == PathsOf(w, a) + Paths(Doom(b, w.table.rows[b]))
  {
    hide Paths, Doom;
    forall p | p in Paths(Doom(b, w.table.rows[b]))
      ensures p in PathsOf(w, a + {b})
    {
      assert b in a + {b};
    }
    forall p | p in PathsOf(w, a)
      ensures p in PathsOf(w, a + {b})
    {
      var k :| k in a && k in w.table.rows && p in Paths(Doom(k, w.table.rows[k]));
      assert k in a + {b};
    }
  }

  /** A part of the missing rows deleted, and nothing else. */
  lemma PartMeans(w: World, present: set<string>, prefix: string, part: set<string>)
    requires part <= Missing(w, present, prefix)
    ensures var t := DeleteRows(w, part);
      forall b :: b in w.table.rows ==>
        var jpeg := w.table.rows[b].photo.jpeg;
        && (b in t.table.rows ==> t.table.rows[b] == w.table.rows[b])
        && (b !in t.table.rows ==> present != {} && !LocalEtag(jpeg.etag) && prefix <= jpeg.key && b !in present)
  {
    hide LocalEtag;
  }

  lemma RemovedCount(w: World, present: set<string>, prefix: string, stuck: set<string>)
    ensures var t := Reconciled(w, present, prefix, stuck);
      w.table.rows.Keys - t.table.rows.Keys == Missing(w, present, prefix)
  {
    hide LocalEtag, PathsOf;
  }

  /** The pile is as long as there are rejected photos. */
  lemma PileSize(w: World, photos: seq<Doomed>)
    requires IsDiscardPile(w, photos)
    ensures |photos| == |DiscardedBases(w)|
  {
    hide Doom, Lex.Less;
    var bases := seq(|photos|, i requires 0 <= i < |photos| => photos[i].keyBase);
    forall i, j | 0 <= i < j < |bases|
      ensures bases[i] != bases[j]
    {
      Lex.Irreflexive(bases[i]);
      assert Lex.Less(photos[i].keyBase, photos[j].keyBase);
    }
    forall b
      ensures b in bases <==> b in DiscardedBases(w)
    {
      if b in DiscardedBases(w) {
        var i :| 0 <= i < |photos| && photos[i].keyBase == b;
        assert bases[i] == b;
      }
    }
    Distinct(bases, DiscardedBases(w));
  }

  lemma {:induction false} Distinct(s: seq<string>, all: set<string>)
    requires forall i, j :: 0 <= i < j < |s| ==> s[i] != s[j]
    requires forall b :: b in s <==> b in all
    ensures |s| == |all|
  {
    if s == [] {
      assert all == {};
    } else {
      var n := |s| - 1;
      assert s == s[..n] + [s[n]];
      Distinct(s[..n], all - {s[n]});
    }
  }
}
