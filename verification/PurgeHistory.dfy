/** A purge is a history: what `RunPurge` does, whatever its faults, is a sequence
    of the atomic steps of the step machine, so that what every history keeps
    holds of it. */
module PurgeHistory {
  import opened Wrappers
  import opened CatalogStore
  import opened World
  import opened Purge
  import History

  type State = History.State
  type Step = History.Step

  /** The steps of a purge: no scan, no upload, nothing from outside but the user. */
  predicate OfPurge(a: Step) {
    a.User? || a.BeginPurge? || a.Recheck? || a.EraseAnswered? || a.EraseFailed? || a.Unthumb? || a.DropRows? || a.DropRowsFailed? || a.EndRun?
  }

  ghost predicate Purges(s: State, t: State) {
    History.Reaches(s, t, OfPurge)
  }

  lemma Join(s: State, m: State, t: State)
    requires Purges(s, m) && Purges(m, t)
    ensures Purges(s, t)
  {
    hide History.Reaches;
    History.ReachesOn(s, m, t, OfPurge);
  }

  lemma Nothing(s: State)
    ensures Purges(s, s)
  {
    hide History.Reaches;
    History.ReachesSelf(s, OfPurge);
  }

  lemma One(s: State, a: Step)
    requires History.Enabled(s, a) && OfPurge(a)
    ensures Purges(s, History.Next(s, a))
  {
    hide History.Enabled, History.Next, History.Reaches;
    History.ReachesNext(s, a, OfPurge);
  }

  lemma {:induction false} Decisions(s: State, actions: seq<UserAction>)
    ensures Purges(s, s.(w := ActAll(s.w, actions)))
  {
    hide Purges, Act;
    if actions == [] {
      Nothing(s);
      assert s.(w := s.w) == s;
    } else {
      var n := |actions| - 1;
      Decisions(s, actions[..n]);
      var m := s.(w := ActAll(s.w, actions[..n]));
      One(m, History.User(actions[n]));
      Join(s, m, s.(w := ActAll(s.w, actions)));
    }
  }

  // ---- One batch ----

  ghost predicate Between(s: State, list: seq<Doomed>, next: nat) {
    s.phase == History.Purging(list, next, History.Between)
  }

  /** The survivors: thumbnails, then rows, unless the store fails. */
  lemma RowsPurge(s: State, list: seq<Doomed>, next: nat, survivors: seq<Doomed>, events: seq<Event>, f: Faults)
    requires s.phase == History.Purging(list, next, History.Erased(survivors))
    ensures Purges(s, History.State(EraseRows(s.w, survivors, events, f).w, History.Purging(list, next, History.Between)))
  {
    hide Purges, ActAll, DeleteRows, AllFailed, AllDone, KeySet, PathSet, BaseSet;
    var unthumbed := History.State(RemoveThumbs(s.w, PathSet(survivors) - f.stuck), History.Purging(list, next, History.Unthumbed(survivors)));
    One(s, History.Unthumb(f.stuck));
    if survivors == [] {
      NoSurvivors(s.w, f.stuck);
      One(unthumbed, History.DropRowsFailed);
      Join(s, unthumbed, History.State(s.w, History.Purging(list, next, History.Between)));
    } else {
      var decided := unthumbed.(w := ActAll(unthumbed.w, f.during));
      Decisions(unthumbed, f.during);
      Join(s, unthumbed, decided);
      if f.storeErr.Some? {
        One(decided, History.DropRowsFailed);
        Join(s, decided, History.State(decided.w, History.Purging(list, next, History.Between)));
      } else {
        One(decided, History.DropRows);
        Join(s, decided, History.State(DeleteRows(decided.w, BaseSet(survivors)), History.Purging(list, next, History.Between)));
      }
    }
  }

  lemma NoSurvivors(w: World, stuck: set<string>)
    ensures RemoveThumbs(w, PathSet([]) - stuck) == w
  {
    assert PathSet([]) == {};
    assert w.thumbs - {} == w.thumbs;
  }

  lemma LivePurge(s: State, list: seq<Doomed>, next: nat, live: seq<Doomed>, events: seq<Event>, f: Faults)
    requires s.phase == History.Purging(list, next, History.Rechecked(live))
    ensures Purges(s, History.State(EraseLive(s.w, live, events, f).w, History.Purging(list, next, History.Between)))
  {
    hide Purges, EraseRows, AllFailed, Refusals, Survivors, KeySet, PathSet, BaseSet;
    if live == [] {
      GiveUp(s, list, next);
    } else {
      match f.answer
      case CallFailed(gone, msg) =>
        One(s, History.EraseFailed(gone * KeySet(live)));
      case Answered(refused) =>
        var survivors := Survivors(live, refused);
        var erased := History.State(EraseObjects(s.w, KeySet(live) - refused.Keys), History.Purging(list, next, History.Erased(survivors)));
        One(s, History.EraseAnswered(refused));
        RowsPurge(erased, list, next, survivors, events + Refusals(live, refused), f);
        Join(s, erased, History.State(EraseLive(s.w, live, events, f).w, History.Purging(list, next, History.Between)));
    }
  }

  /** Leaving a batch without touching anything. */
  lemma GiveUp(s: State, list: seq<Doomed>, next: nat)
    requires s.phase.Purging? && s.phase.list == list && s.phase.next == next && s.phase.hand.Rechecked?
    ensures Purges(s, History.State(s.w, History.Purging(list, next, History.Between)))
  {
    hide Purges;
    One(s, History.EraseFailed({}));
    assert s.w.bucket - {} == s.w.bucket;
    assert EraseObjects(s.w, {}) == s.w;
  }

  lemma BatchPurges(s: State, list: seq<Doomed>, next: nat, f: Faults)
    requires Between(s, list, next) && next < |list| && !f.cancelledBefore
    ensures var batch := Take(list[next..]);
      next + |batch| <= |list|
      && Purges(s, History.State(RunBatch(s.w, batch, f).w, History.Purging(list, next + |batch|, History.Between)))
  {
    hide Purges, ActAll, EraseLive, Live, Spared, AllFailed, StillDiscarded, Take;
    var batch := Take(list[next..]);
    TakeSome(list[next..]);
    var decided := s.(w := ActAll(s.w, f.before));
    Decisions(s, f.before);
    var live := Live(decided.w, batch);
    var rechecked := History.State(decided.w, History.Purging(list, next + |batch|, History.Rechecked(live)));
    One(decided, History.Recheck);
    Join(s, decided, rechecked);
    var end := History.State(RunBatch(s.w, batch, f).w, History.Purging(list, next + |batch|, History.Between));
    if f.recheckErr.Some? {
      GiveUp(rechecked, list, next + |batch|);
    } else {
      LivePurge(rechecked, list, next + |batch|, live, Spared(decided.w, batch), f);
    }
    Join(s, rechecked, end);
  }

  // ---- The whole purge ----

  lemma {:induction false} BatchesPurge(s: State, list: seq<Doomed>, next: nat, faults: nat -> Faults, b: nat)
    requires Between(s, list, next) && next <= |list|
    ensures exists m :: Purges(s, History.State(RunPurge(s.w, list[next..], faults, b).w, History.Purging(list, m, History.Between)))
    decreases |list| - next
  {
    hide Purges, RunBatch, Take;
    if next == |list| || faults(b).cancelledBefore {
      Nothing(s);
      CancelledAtOnce(s.w, list[next..], faults, b);
      assert s == History.State(s.w, History.Purging(list, next, History.Between));
    } else {
      var batch := Take(list[next..]);
      TakeSome(list[next..]);
      BatchPurges(s, list, next, faults(b));
      var e := RunBatch(s.w, batch, faults(b));
      var t := History.State(e.w, History.Purging(list, next + |batch|, History.Between));
      if !e.cancelled {
        assert list[next..][|batch|..] == list[next + |batch|..];
        BatchesPurge(t, list, next + |batch|, faults, b + 1);
        var m :| Purges(t, History.State(RunPurge(t.w, list[next + |batch|..], faults, b + 1).w, History.Purging(list, m, History.Between)));
        Join(s, t, History.State(RunPurge(s.w, list[next..], faults, b).w, History.Purging(list, m, History.Between)));
      }
    }
  }

  lemma CancelledAtOnce(w: World, photos: seq<Doomed>, faults: nat -> Faults, b: nat)
    requires photos == [] || faults(b).cancelledBefore
    ensures RunPurge(w, photos, faults, b).w == w
  {
  }

  /** Every purge of the discard pile, with any failures, cancellations and
      decisions meanwhile, is a history from idle to idle. */
  lemma PurgeIsHistory(w: World, list: seq<Doomed>, faults: nat -> Faults)
    requires IsDiscardPile(w, list)
    ensures Purges(History.State(w, History.Idle), History.State(RunPurge(w, list, faults, 0).w, History.Idle))
  {
    hide Purges, RunPurge, IsDiscardPile;
    var idle := History.State(w, History.Idle);
    var begun := History.State(w, History.Purging(list, 0, History.Between));
    One(idle, History.BeginPurge(list));
    assert list[0..] == list;
    BatchesPurge(begun, list, 0, faults, 0);
    var m :| Purges(begun, History.State(RunPurge(w, list, faults, 0).w, History.Purging(list, m, History.Between)));
    var done := History.State(RunPurge(w, list, faults, 0).w, History.Purging(list, m, History.Between));
    Join(idle, begun, done);
    One(done, History.EndRun);
    Join(idle, done, History.State(done.w, History.Idle));
  }

  // ---- What follows ----

  /** A row that a stretch of purge removed owns nothing in the bucket after it. */
  lemma {:induction false} LeadsSafely(s: State, steps: seq<Step>, t: State, k: string)
    requires History.Leads(s, steps, t) && History.Inv(s) && forall i :: 0 <= i < |steps| ==> OfPurge(steps[i])
    requires k in s.w.table.rows
    ensures History.Inv(t) && t.w.bucket.Keys <= s.w.bucket.Keys
    ensures k !in t.w.table.rows ==> Recorded(s.w.table.rows[k]) !! t.w.bucket.Keys
    ensures k in t.w.table.rows ==> Recorded(t.w.table.rows[k]) == Recorded(s.w.table.rows[k])
    decreases |steps|
  {
    hide History.Inv, History.Enabled, History.Next, Recorded, OfPurge;
    if steps != [] {
      var m := History.Next(s, steps[0]);
      History.InvKept(s, steps[0]);
      StepRemovesOnly(s, steps[0], k);
      if k in m.w.table.rows {
        LeadsSafely(m, steps[1..], t, k);
      } else {
        History.RemovedOnlyWhenGone(s, steps[0], k);
        BucketShrinks(m, steps[1..], t);
      }
    }
  }

  lemma StepRemovesOnly(s: State, a: Step, k: string)
    requires History.Enabled(s, a) && OfPurge(a)
    ensures History.Next(s, a).w.bucket.Keys <= s.w.bucket.Keys
    ensures History.Next(s, a).w.table.rows.Keys <= s.w.table.rows.Keys
    ensures k in History.Next(s, a).w.table.rows ==> Recorded(History.Next(s, a).w.table.rows[k]) == Recorded(s.w.table.rows[k])
  {
    hide Recorded, IsDiscardPile, Cascade, Ids, Take, Live, Survivors, KeySet, PathSet, BaseSet;
    if a.User? {
      History.ActKeepsKeys(s.w, a.action);
    }
  }

  lemma {:induction false} BucketShrinks(s: State, steps: seq<Step>, t: State)
    requires History.Leads(s, steps, t) && History.Inv(s) && forall i :: 0 <= i < |steps| ==> OfPurge(steps[i])
    ensures History.Inv(t) && t.w.bucket.Keys <= s.w.bucket.Keys && t.w.table.rows.Keys <= s.w.table.rows.Keys
    decreases |steps|
  {
    hide History.Inv, History.Enabled, History.Next, Recorded, OfPurge;
    if steps != [] {
      History.InvKept(s, steps[0]);
      StepRemovesOnly(s, steps[0], "");
      BucketShrinks(History.Next(s, steps[0]), steps[1..], t);
    }
  }

  /** The purge of the program orphans nothing: whatever fails, is cancelled or is
      un-rejected meanwhile, a photo whose row is gone has no object left in the
      bucket, and one whose row stays records the same objects. */
  lemma PurgeOrphansNothing(w: World, list: seq<Doomed>, faults: nat -> Faults, k: string)
    requires WellKeyed(w) && IsDiscardPile(w, list) && k in w.table.rows
    ensures var end := RunPurge(w, list, faults, 0).w;
      && (k !in end.table.rows ==> Recorded(w.table.rows[k]) !! end.bucket.Keys)
      && (k in end.table.rows ==> Recorded(end.table.rows[k]) == Recorded(w.table.rows[k]))
  {
    hide RunPurge, Recorded, IsDiscardPile, History.Leads, OfPurge, WellKeyed;
    PurgeIsHistory(w, list, faults);
    var s, t := History.State(w, History.Idle), History.State(RunPurge(w, list, faults, 0).w, History.Idle);
    var steps :| History.Leads(s, steps, t) && forall i :: 0 <= i < |steps| ==> OfPurge(steps[i]);
    LeadsSafely(s, steps, t, k);
  }
}
