/** Whole histories of the catalog: scans, purges with failures, cancellations
    and user decisions, interleaved at every atomic step (worker/purge.go,
    worker/coordinator.go, catalog/catalog.go). The run lock shows in `phase`:
    a scan or a purge starts only when nothing runs. */
module History {
  import opened Wrappers
  import opened CatalogStore
  import opened World
  import Listing
  import Purge

  /** What is running. A purge works on the list taken when it started; `next` is
      the start of the batch after the one in hand. */
  datatype Phase =
    | Idle
    | Scanning(listed: set<Photo>)
    | Purging(list: seq<Doomed>, next: nat, hand: Hand)

  /** The batch in hand: none, rechecked, erased from the bucket, or without
      thumbnails too. */
  datatype Hand = Between | Rechecked(live: seq<Doomed>) | Erased(gone: seq<Doomed>) | Unthumbed(gone: seq<Doomed>)

  datatype State = State(w: World, phase: Phase)

  datatype Step =
    | User(action: UserAction)
    | Upload(o: ObjectRef)
    | Vanish(key: string)
    | BeginScan(prefix: string, objs: seq<ObjectRef>, failed: Option<set<string>>, stuck: set<string>)
    | BeginLocalScan(photos: set<Photo>)
    | Render(p: Photo)
    | Store(p: Photo, meta: Metadata)
    | BeginPurge(list: seq<Doomed>)
    | Recheck
    | EraseAnswered(refused: map<string, string>)
    | EraseFailed(gone: set<string>)
    | Unthumb(stuck: set<string>)
    | DropRows
    | DropRowsFailed
    | EndRun

  /** External uploads happen between runs; users decide, and objects vanish, at
      any time. A scan of the bucket may fail while it deletes rows: `failed` is
      then the part of the missing rows that was deleted. */
  ghost predicate Enabled(s: State, a: Step) {
    match a
    case User(_) => true
    case Upload(o) => s.phase.Idle?
    case Vanish(_) => true
    case BeginScan(prefix, objs, failed, _) =>
      s.phase.Idle? && Lists(objs, s.w, prefix)
      && (forall i :: 0 <= i < |objs| ==> !LocalEtag(objs[i].etag))
      && (forall k :: k in s.w.table.rows ==> PrefixSpares(s.w.table.rows[k], prefix))
      && (failed.Some? ==> failed.value <= Missing(s.w, Listing.Paired(objs).Keys, prefix))
    case BeginLocalScan(photos) => s.phase.Idle? && forall p :: p in photos ==> LocalEtag(p.jpeg.etag)
    case Render(p) => s.phase.Scanning? && p in s.phase.listed
    case Store(p, _) => s.phase.Scanning? && p in s.phase.listed
    case BeginPurge(list) => s.phase.Idle? && IsDiscardPile(s.w, list)
    case Recheck => s.phase.Purging? && s.phase.hand.Between? && s.phase.next < |s.phase.list|
    case EraseAnswered(_) => s.phase.Purging? && s.phase.hand.Rechecked?
    case EraseFailed(gone) => s.phase.Purging? && s.phase.hand.Rechecked? && gone <= Purge.KeySet(s.phase.hand.live)
    case Unthumb(_) => s.phase.Purging? && s.phase.hand.Erased?
    case DropRows => s.phase.Purging? && s.phase.hand.Unthumbed?
    case DropRowsFailed => s.phase.Purging? && s.phase.hand.Unthumbed?
    case EndRun => !s.phase.Idle?
  }

  /** The photos a listing yields. */
  ghost function PhotosOf(objs: seq<ObjectRef>): set<Photo> {
    var paired := Listing.Paired(objs);
    set b | b in paired && paired[b].jpeg.Some? :: Listing.ToPhoto(b, paired[b])
  }

  ghost function Next(s: State, a: Step): State
    requires Enabled(s, a)
  {
    match a
    case User(action) => s.(w := Act(s.w, action))
    case Upload(o) => s.(w := s.w.(bucket := s.w.bucket[o.key := o]))
    case Vanish(key) => s.(w := EraseObjects(s.w, {key}))
    case BeginScan(prefix, objs, failed, stuck) =>
      (match failed
       case None => State(Reconciled(s.w, Listing.Paired(objs).Keys, prefix, stuck), Scanning(PhotosOf(objs)))
       case Some(part) => s.(w := DeleteRows(s.w, part)))
    case BeginLocalScan(photos) => s.(phase := Scanning(photos))
    case Render(p) => s.(w := s.w.(thumbs := s.w.thumbs + {ThumbPath(p.keyBase)}))
    case Store(p, meta) => s.(w := s.w.(table := Upsert(s.w.table, p, meta)))
    case BeginPurge(list) => s.(phase := Purging(list, 0, Between))
    case Recheck =>
      var batch := Purge.Take(s.phase.list[s.phase.next..]);
      s.(phase := s.phase.(next := s.phase.next + |batch|, hand := Rechecked(Purge.Live(s.w, batch))))
    case EraseAnswered(refused) =>
      var live := s.phase.hand.live;
      State(EraseObjects(s.w, Purge.KeySet(live) - refused.Keys), s.phase.(hand := Erased(Purge.Survivors(live, refused))))
    case EraseFailed(gone) => State(EraseObjects(s.w, gone), s.phase.(hand := Between))
    case Unthumb(stuck) => State(RemoveThumbs(s.w, Purge.PathSet(s.phase.hand.gone) - stuck), s.phase.(hand := Unthumbed(s.phase.hand.gone)))
    case DropRows => State(DeleteRows(s.w, Purge.BaseSet(s.phase.hand.gone)), s.phase.(hand := Between))
    case DropRowsFailed => s.(phase := s.phase.(hand := Between))
    case EndRun => s.(phase := Idle)
  }

  /** A scan whose listing holds no photo, as that of a misconfigured bucket, changes
      nothing. */
  lemma EmptyScanKeeps(s: State, prefix: string, objs: seq<ObjectRef>, failed: Option<set<string>>, stuck: set<string>)
    requires Enabled(s, BeginScan(prefix, objs, failed, stuck)) && forall i :: 0 <= i < |objs| ==> !Listing.Kept(objs[i].key)
    ensures Next(s, BeginScan(prefix, objs, failed, stuck)).w == s.w
  {
    hide Listing.Kept, LocalEtag, Reconciled, Lists, PrefixSpares;
    NoneKept(objs);
    assert Listing.Paired(objs).Keys == {};
    EmptyListingKeeps(s.w, prefix, stuck);
    if failed.Some? {
      assert failed.value == {};
      KeepsAll(s.w, {}, prefix, stuck);
      assert s.w == DeleteRows(s.w, {}) by { DeletesNothing(s.w); }
    }
  }

  lemma DeletesNothing(w: World)
    ensures DeleteRows(w, {}) == w
  {
    assert Ids(w.table, {}) == {} && Cascade(w.albums, {}) == w.albums by {
      assert forall a :: a in w.albums ==> w.albums[a] - {} == w.albums[a];
    }
    assert w.table.rows - {} == w.table.rows;
  }

  lemma {:induction false} NoneKept(objs: seq<ObjectRef>)
    requires forall i :: 0 <= i < |objs| ==> !Listing.Kept(objs[i].key)
    ensures Listing.Paired(objs) == map[]
  {
    hide Listing.Kept;
    if objs != [] {
      NoneKept(objs[..|objs| - 1]);
    }
  }

  // ---- What every history keeps ----

  /** The snapshot of a purge is accurate: as long as a listed photo has a row,
      that row records the keys that were listed. */
  ghost predicate Accurate(w: World, list: seq<Doomed>) {
    forall i :: 0 <= i < |list| && list[i].keyBase in w.table.rows ==>
      Keys(list[i]) == Recorded(w.table.rows[list[i].keyBase])
  }

  /** Photos past the erase step own nothing in the bucket any more. */
  ghost predicate Gone(w: World, list: seq<Doomed>, ds: seq<Doomed>) {
    forall d :: d in ds ==> d in list && Keys(d) !! w.bucket.Keys
  }

  ghost predicate Inv(s: State) {
    && WellKeyed(s.w)
    && match s.phase
       case Idle => true
       case Scanning(listed) => forall p :: p in listed ==> FromBucket(p) || LocalEtag(p.jpeg.etag)
       case Purging(list, next, hand) =>
         next <= |list| && Accurate(s.w, list)
         && (match hand
             case Between => true
             case Rechecked(live) => forall d :: d in live ==> d in list
             case Erased(gone) => Gone(s.w, list, gone)
             case Unthumbed(gone) => Gone(s.w, list, gone))
  }

  lemma ActKeepsKeys(w: World, a: UserAction)
    ensures var t := Act(w, a);
      t.bucket == w.bucket && t.table.rows.Keys == w.table.rows.Keys
      && forall k :: k in w.table.rows ==> t.table.rows[k].photo == w.table.rows[k].photo && Recorded(t.table.rows[k]) == Recorded(w.table.rows[k])
  {
  }

  lemma InvKept(s: State, a: Step)
    requires Inv(s) && Enabled(s, a)
    ensures Inv(Next(s, a))
  {
    hide Listing.Matches, LocalEtag, Recorded, Keys, Doom, Purge.Take, Purge.Live, Purge.Survivors, PrefixSpares;
    var t := Next(s, a);
    match a
    case User(action) => ActKeepsKeys(s.w, action);
    case BeginScan(prefix, objs, failed, _) =>
      forall p | p in PhotosOf(objs)
        ensures FromBucket(p)
      {
        ListedFromBucket(objs, p.keyBase);
      }
    case BeginPurge(list) => PileIsAccurate(s.w, list);
    case Recheck =>
      Purge.TakeSome(s.phase.list[s.phase.next..]);
      Purge.LiveMeans(s.w, Purge.Take(s.phase.list[s.phase.next..]));
    case EraseAnswered(refused) => SurvivorsGone(s.w, s.phase.list, s.phase.hand.live, refused);
    case _ =>
  }

  /** No key of a survivor was refused, so all its keys are gone. */
  lemma SurvivorsGone(w: World, list: seq<Doomed>, live: seq<Doomed>, refused: map<string, string>)
    requires forall d :: d in live ==> d in list
    ensures Gone(EraseObjects(w, Purge.KeySet(live) - refused.Keys), list, Purge.Survivors(live, refused))
  {
    hide Purge.Survivors;
    Purge.SurvivorsMean(live, refused);
    forall d | d in Purge.Survivors(live, refused)
      ensures Keys(d) !! EraseObjects(w, Purge.KeySet(live) - refused.Keys).bucket.Keys
    {
      assert Keys(d) <= Purge.KeySet(live);
    }
  }

  lemma PileIsAccurate(w: World, list: seq<Doomed>)
    requires IsDiscardPile(w, list)
    ensures Accurate(w, list)
  {
  }

  /** The row at k is there before a step of the run and not after. */
  ghost predicate Removed(s: State, t: State, k: string) {
    k in s.w.table.rows && k !in t.w.table.rows
  }

  /** Whatever the step, a row disappears only when none of the keys it records
      is in the bucket. */
  lemma RemovedOnlyWhenGone(s: State, a: Step, k: string)
    requires Inv(s) && Enabled(s, a) && Removed(s, Next(s, a), k)
    ensures Recorded(s.w.table.rows[k]) !! s.w.bucket.Keys
    ensures Recorded(s.w.table.rows[k]) !! Next(s, a).w.bucket.Keys
  {
    hide Listing.Matches, LocalEtag, Recorded, Lists, Listing.Paired, PrefixSpares, Purge.Take, Purge.Live, Purge.Survivors;
    match a
    case BeginScan(prefix, objs, failed, _) => MissingIsGone(s.w, objs, prefix, k);
    case DropRows =>
      var d :| d in s.phase.hand.gone && d.keyBase == k;
      var i :| 0 <= i < |s.phase.list| && s.phase.list[i] == d;
    case _ =>
  }

  ghost predicate IsHistory(states: seq<State>, steps: seq<Step>) {
    && |states| == |steps| + 1
    && states[0].phase.Idle?
    && forall n :: 0 <= n < |steps| ==>
         Enabled(states[n], steps[n]) && states[n + 1] == Next(states[n], steps[n])
  }

  lemma {:induction false} HistoryKeeps(states: seq<State>, steps: seq<Step>, n: nat)
    requires IsHistory(states, steps) && WellKeyed(states[0].w) && n < |states|
    ensures Inv(states[n])
  {
    if n > 0 {
      HistoryKeeps(states, steps, n - 1);
      InvKept(states[n - 1], steps[n - 1]);
    }
  }

  /** Over any history that starts from well-keyed rows, the empty catalog
      included: no purge and no reconciliation ever orphans an original. */
  lemma NoOrphans(states: seq<State>, steps: seq<Step>, n: nat, k: string)
    requires IsHistory(states, steps) && WellKeyed(states[0].w) && n < |steps|
    requires Removed(states[n], states[n + 1], k)
    ensures Recorded(states[n].w.table.rows[k]) !! states[n].w.bucket.Keys
  {
    HistoryKeeps(states, steps, n);
    RemovedOnlyWhenGone(states[n], steps[n], k);
  }

  // ---- Stretches of history ----

  /** The steps are enabled one after the other and end in t. */
  ghost predicate Leads(s: State, steps: seq<Step>, t: State)
    decreases |steps|
  {
    if steps == [] then s == t else Enabled(s, steps[0]) && Leads(Next(s, steps[0]), steps[1..], t)
  }

  lemma {:induction false} LeadsJoin(s: State, a: seq<Step>, m: State, b: seq<Step>, t: State)
    requires Leads(s, a, m) && Leads(m, b, t)
    ensures Leads(s, a + b, t)
    decreases |a|
  {
    hide Enabled, Next;
    if a == [] {
      assert a + b == b;
    } else {
      assert (a + b)[1..] == a[1..] + b;
      LeadsJoin(Next(s, a[0]), a[1..], m, b, t);
    }
  }

  lemma LeadsNowhere(s: State)
    ensures Leads(s, [], s)
  {
  }

  lemma LeadsOne(s: State, a: Step)
    requires Enabled(s, a)
    ensures Leads(s, [a], Next(s, a))
  {
    hide Enabled, Next;
    assert Leads(Next(s, a), [], Next(s, a));
    assert [a][1..] == [];
  }

  /** Allowed steps lead from s to t. */
  ghost predicate Reaches(s: State, t: State, allowed: Step -> bool) {
    exists steps :: Leads(s, steps, t) && forall i :: 0 <= i < |steps| ==> allowed(steps[i])
  }

  lemma ReachesSelf(s: State, allowed: Step -> bool)
    ensures Reaches(s, s, allowed)
  {
    LeadsNowhere(s);
  }

  lemma ReachesNext(s: State, a: Step, allowed: Step -> bool)
    requires Enabled(s, a) && allowed(a)
    ensures Reaches(s, Next(s, a), allowed)
  {
    hide Enabled, Next, Leads;
    LeadsOne(s, a);
  }

  lemma ReachesOn(s: State, m: State, t: State, allowed: Step -> bool)
    requires Reaches(s, m, allowed) && Reaches(m, t, allowed)
    ensures Reaches(s, t, allowed)
  {
    hide Leads;
    var a :| Leads(s, a, m) && forall i :: 0 <= i < |a| ==> allowed(a[i]);
    var b :| Leads(m, b, t) && forall i :: 0 <= i < |b| ==> allowed(b[i]);
    LeadsJoin(s, a, m, b, t);
    assert forall i :: 0 <= i < |a + b| ==> allowed((a + b)[i]);
  }

  // ---- Identity, selection and albums ----

  /** Ids are never reused, and a photo is never both rated and rejected. */
  ghost predicate Sound(t: Table) {
    && (forall k :: k in t.rows ==> t.rows[k].id < t.nextId)
    && (forall j, k :: j in t.rows && k in t.rows && t.rows[j].id == t.rows[k].id ==> j == k)
    && Exclusive(t)
  }

  lemma SoundKept(s: State, a: Step)
    requires Sound(s.w.table) && Enabled(s, a)
    ensures Sound(Next(s, a).w.table)
  {
    hide Sound, Listing.Matches, LocalEtag, Lists, Missing, Listing.Paired, WellKeyed, Upsert, Decide, Ids, Cascade, PathsOf, PrefixSpares,
         Purge.Take, Purge.Live, Purge.Survivors;
    match a
    case User(action) => DecideSound(s.w.table, action);
    case Store(p, meta) => UpsertSound(s.w.table, p, meta);
    case BeginScan(prefix, objs, failed, _) =>
      DropSound(s.w, Missing(s.w, Listing.Paired(objs).Keys, prefix));
      if failed.Some? {
        DropSound(s.w, failed.value);
      }
    case DropRows => DropSound(s.w, Purge.BaseSet(s.phase.hand.gone));
    case _ =>
  }

  lemma DecideSound(t: Table, a: UserAction)
    requires Sound(t)
    ensures Sound(Decide(t, a))
  {
  }

  lemma UpsertSound(t: Table, p: Photo, meta: Metadata)
    requires Sound(t)
    ensures Sound(Upsert(t, p, meta))
  {
    hide ThumbPath;
  }

  lemma DropSound(w: World, bases: set<string>)
    requires Sound(w.table)
    ensures Sound(DeleteRows(w, bases).table)
  {
  }

  /** A row that survives a step keeps its id and its albums; only a user action
      on it changes its rating or its decision. */
  ghost predicate KeepsIdentity(s: State, t: State, k: string) {
    && k in s.w.table.rows && k in t.w.table.rows
    && t.w.table.rows[k].id == s.w.table.rows[k].id
    && s.w.albums.Keys == t.w.albums.Keys
    && forall a :: a in s.w.albums ==> (s.w.table.rows[k].id in s.w.albums[a] <==> s.w.table.rows[k].id in t.w.albums[a])
  }

  ghost predicate KeepsSelection(s: State, t: State, k: string) {
    && k in s.w.table.rows && k in t.w.table.rows
    && t.w.table.rows[k].rating == s.w.table.rows[k].rating && t.w.table.rows[k].discarded == s.w.table.rows[k].discarded
  }

  lemma SurvivorKept(s: State, a: Step, k: string)
    requires Sound(s.w.table) && Enabled(s, a)
    requires k in s.w.table.rows && k in Next(s, a).w.table.rows
    ensures KeepsIdentity(s, Next(s, a), k)
    ensures !(a.User? && a.action.keyBase == k) ==> KeepsSelection(s, Next(s, a), k)
  {
    hide Listing.Matches, LocalEtag, Lists, Missing, Listing.Paired, WellKeyed, PathsOf, PrefixSpares, Purge.Take, Purge.Live, Purge.Survivors;
  }

  /** Across any stretch of history through which a photo keeps its row, whatever
      scans and purges come between: same id, same albums, and the selection the
      user gave it; and at no time is any photo both rated and rejected. */
  lemma {:induction false} SurvivorsKeepIdentity(states: seq<State>, steps: seq<Step>, m: nat, n: nat, k: string)
    requires IsHistory(states, steps) && Sound(states[0].w.table) && m <= n < |states|
    requires forall i :: m <= i <= n ==> k in states[i].w.table.rows
    ensures Sound(states[n].w.table)
    ensures KeepsIdentity(states[m], states[n], k)
    ensures (forall i :: m <= i < n ==> !(steps[i].User? && steps[i].action.keyBase == k)) ==> KeepsSelection(states[m], states[n], k)
  {
    hide Sound, Enabled, Next;
    if n == m {
      SoundAt(states, steps, n);
    } else {
      SurvivorsKeepIdentity(states, steps, m, n - 1, k);
      SoundKept(states[n - 1], steps[n - 1]);
      assert states[n] == Next(states[n - 1], steps[n - 1]);
      SurvivorKept(states[n - 1], steps[n - 1], k);
    }
  }

  lemma {:induction false} SoundAt(states: seq<State>, steps: seq<Step>, n: nat)
    requires IsHistory(states, steps) && Sound(states[0].w.table) && n < |states|
    ensures Sound(states[n].w.table)
  {
    hide Sound, Enabled, Next;
    if n > 0 {
      SoundAt(states, steps, n - 1);
      SoundKept(states[n - 1], steps[n - 1]);
    }
  }

  // ---- Thumbnails ----

  /** A row records its own thumbnail or none. */
  lemma OwnThumbsKept(s: State, a: Step)
    requires OwnThumbs(s.w) && Enabled(s, a)
    ensures OwnThumbs(Next(s, a).w)
  {
    hide Listing.Matches, LocalEtag, Lists, Missing, Listing.Paired, WellKeyed, PathsOf, PrefixSpares, ThumbPath,
         Purge.Take, Purge.Live, Purge.Survivors;
  }

  /** What holds of the rows at every moment of a history. */
  lemma {:induction false} RowsAt(states: seq<State>, steps: seq<Step>, n: nat)
    requires IsHistory(states, steps) && n < |states|
    requires WellKeyed(states[0].w) && Sound(states[0].w.table) && OwnThumbs(states[0].w)
    ensures WellKeyed(states[n].w) && Sound(states[n].w.table) && OwnThumbs(states[n].w)
  {
    hide Sound, Enabled, Next, OwnThumbs, WellKeyed;
    HistoryKeeps(states, steps, n);
    SoundAt(states, steps, n);
    if n > 0 {
      RowsAt(states, steps, n - 1);
      OwnThumbsKept(states[n - 1], steps[n - 1]);
    }
  }
}
