/** The fan-out of status messages to subscribers (worker/hub.go): a lock around
    the set of subscribers and one bounded queue for each of them. The readers
    take from their queues at any moment, without the lock. */
module Hub {
  import opened Wrappers

  const CAPACITY := 8

  /** A subscriber's queue. Messages are told by their number in order of broadcast:
      those from `since` up to `until` have been offered; they were taken, are
      waiting, or were missed. */
  datatype Queue = Queue(since: nat, until: nat, taken: seq<nat>, waiting: seq<nat>, missed: set<nat>, closes: nat)

  /** Who is inside the lock and what is left to do there. */
  datatype Holder = Nobody | Broadcasting(todo: set<nat>) | Closing(ch: nat)

  /** `broken` once a message went to a closed queue or a queue was closed again. */
  datatype State = State(subs: set<nat>, queues: map<nat, Queue>, log: seq<string>, holder: Holder, broken: bool)

  datatype Step =
    | Subscribe(ch: nat)
    | Unsubscribe(ch: nat)
    | Close
    | Broadcast(msg: string)
    | Offer(ch: nat)
    | Done
    | Take(ch: nat)

  /** A message to a queue that is full is dropped. */
  function Offered(q: Queue, n: nat): Queue {
    if |q.waiting| < CAPACITY then q.(waiting := q.waiting + [n], until := n + 1)
    else q.(missed := q.missed + {n}, until := n + 1)
  }

  function Taken(q: Queue): Queue
    requires q.waiting != []
  {
    q.(taken := q.taken + [q.waiting[0]], waiting := q.waiting[1..])
  }

  predicate Enabled(s: State, a: Step) {
    match a
    case Subscribe(ch) => s.holder.Nobody? && ch !in s.queues
    case Unsubscribe(_) => s.holder.Nobody?
    case Close => s.holder.Closing? && s.holder.ch in s.queues
    case Broadcast(_) => s.holder.Nobody?
    case Offer(ch) => s.holder.Broadcasting? && ch in s.holder.todo && ch in s.queues && s.log != []
    case Done => s.holder.Broadcasting? && s.holder.todo == {}
    case Take(ch) => ch in s.queues && s.queues[ch].waiting != []
  }

  function Next(s: State, a: Step): State
    requires Enabled(s, a)
  {
    match a
    case Subscribe(ch) => s.(subs := s.subs + {ch}, queues := s.queues[ch := Queue(|s.log|, |s.log|, [], [], {}, 0)])
    case Unsubscribe(ch) => if ch in s.subs then s.(subs := s.subs - {ch}, holder := Closing(ch)) else s
    case Close =>
      var q := s.queues[s.holder.ch];
      s.(queues := s.queues[s.holder.ch := q.(closes := q.closes + 1)], holder := Nobody, broken := s.broken || q.closes > 0)
    case Broadcast(msg) => s.(log := s.log + [msg], holder := Broadcasting(s.subs))
    case Offer(ch) =>
      var q := s.queues[ch];
      s.(queues := s.queues[ch := Offered(q, |s.log| - 1)], holder := Broadcasting(s.holder.todo - {ch}), broken := s.broken || q.closes > 0)
    case Done => s.(holder := Nobody)
    case Take(ch) => s.(queues := s.queues[ch := Taken(s.queues[ch])])
  }

  // ---- What every step keeps ----

  ghost predicate Ascending(ns: seq<nat>) {
    forall i, j :: 0 <= i < j < |ns| ==> ns[i] < ns[j]
  }

  /** What was offered to a queue came in order, once, and none of it is lost but
      what was missed. */
  ghost predicate Accounts(q: Queue) {
    && |q.waiting| <= CAPACITY && q.since <= q.until
    && Ascending(q.taken + q.waiting)
    && (forall n :: n in q.taken + q.waiting ==> q.since <= n < q.until && n !in q.missed)
    && (forall n :: n in q.missed ==> q.since <= n < q.until)
    && (forall n :: q.since <= n < q.until && n !in q.missed ==> n in q.taken + q.waiting)
  }

  /** The queues of the subscribers are open, every other one was closed once or is
      about to be. */
  ghost predicate Lifecycle(s: State) {
    && !s.broken && s.subs <= s.queues.Keys
    && (forall ch :: ch in s.queues ==>
          s.queues[ch].closes == if ch in s.subs || s.holder == Closing(ch) then 0 else 1)
    && (s.holder.Closing? ==> s.holder.ch in s.queues && s.holder.ch !in s.subs)
    && (s.holder.Broadcasting? ==> s.holder.todo <= s.subs && s.log != [])
  }

  /** Every subscriber has been offered everything but the message under way. */
  ghost predicate Offers(s: State) {
    forall ch :: ch in s.queues ==>
      && Accounts(s.queues[ch]) && s.queues[ch].until <= |s.log|
      && (ch in s.subs ==> s.queues[ch].until == if s.holder.Broadcasting? && ch in s.holder.todo then |s.log| - 1 else |s.log|)
  }

  ghost predicate Inv(s: State) {
    Lifecycle(s) && Offers(s)
  }

  lemma OfferedAccounts(q: Queue)
    requires Accounts(q)
    ensures Accounts(Offered(q, q.until))
  {
    var n := q.until;
    var r := Offered(q, n);
    var all := q.taken + q.waiting;
    if |q.waiting| < CAPACITY {
      assert r.taken + r.waiting == all + [n];
      assert forall m :: m in all + [n] <==> m in all || m == n;
      assert forall i :: 0 <= i < |all| ==> all[i] in all;
    }
  }

  lemma TakenAccounts(q: Queue)
    requires Accounts(q) && q.waiting != []
    ensures Accounts(Taken(q))
  {
    assert Taken(q).taken + Taken(q).waiting == q.taken + q.waiting;
  }

  lemma InvKept(s: State, a: Step)
    requires Inv(s) && Enabled(s, a)
    ensures Inv(Next(s, a))
  {
    hide Accounts, Offered, Taken;
    match a
    case Subscribe(ch) => NewAccounts(|s.log|);
    case Close => ClosedAccounts(s.queues[s.holder.ch]);
    case Offer(ch) =>
      OfferedAccounts(s.queues[ch]);
      OfferedFields(s.queues[ch], |s.log| - 1);
    case Take(ch) =>
      TakenAccounts(s.queues[ch]);
      TakenFields(s.queues[ch]);
    case _ =>
  }

  /** Messages go to open queues only, and only open queues are closed: queues of which
      none was closed before. */
  lemma OnlyOpenQueues(s: State, ch: nat)
    requires Inv(s)
    ensures Enabled(s, Offer(ch)) ==> s.queues[ch].closes == 0 && !Next(s, Offer(ch)).broken
    ensures Enabled(s, Close) ==> s.queues[s.holder.ch].closes == 0 && Next(s, Close).queues[s.holder.ch].closes == 1 && !Next(s, Close).broken
    ensures s.queues.Keys * s.subs == s.subs && (ch in s.queues ==> s.queues[ch].closes <= 1)
  {
    hide Accounts, Offered;
  }

  lemma NewAccounts(n: nat)
    ensures Accounts(Queue(n, n, [], [], {}, 0))
  {
  }

  lemma ClosedAccounts(q: Queue)
    requires Accounts(q)
    ensures Accounts(q.(closes := q.closes + 1))
  {
  }

  lemma OfferedFields(q: Queue, n: nat)
    ensures Offered(q, n).closes == q.closes && Offered(q, n).until == n + 1
  {
  }

  lemma TakenFields(q: Queue)
    requires q.waiting != []
    ensures Taken(q).closes == q.closes && Taken(q).until == q.until
  {
  }

  /** A run from a hub without subscribers. */
  ghost predicate IsRun(states: seq<State>, steps: seq<Step>) {
    && |states| == |steps| + 1
    && states[0] == State({}, map[], [], Nobody, false)
    && forall n :: 0 <= n < |steps| ==> Enabled(states[n], steps[n]) && states[n + 1] == Next(states[n], steps[n])
  }

  /** However subscribers come, read, stall and go: no message goes to a closed
      queue, no queue is closed twice, and every queue accounts for its messages. */
  lemma {:induction false} RunKeeps(states: seq<State>, steps: seq<Step>, n: nat)
    requires IsRun(states, steps) && n < |states|
    ensures Inv(states[n])
  {
    hide Lifecycle, Offers;
    if n > 0 {
      RunKeeps(states, steps, n - 1);
      InvKept(states[n - 1], steps[n - 1]);
    } else {
      NoQueues();
    }
  }

  lemma NoQueues()
    ensures Inv(State({}, map[], [], Nobody, false))
  {
  }

  // ---- Nobody waits for a reader ----

  /** What the holder of the lock has left to do. */
  function Work(s: State): nat {
    match s.holder
    case Nobody => 0
    case Closing(_) => 1
    case Broadcasting(todo) => |todo| + 1
  }

  /** While the lock is held its holder can move, whatever the readers do; each of
      its steps is one less to do, and no step of a reader adds to it. So a
      broadcast takes one step a subscriber and one more. */
  lemma HolderMoves(s: State)
    requires Inv(s) && !s.holder.Nobody?
    ensures exists a :: Enabled(s, a) && !a.Take?
    ensures forall a :: Enabled(s, a) ==> Work(Next(s, a)) == Work(s) - if a.Take? then 0 else 1
  {
    hide Accounts;
    match s.holder
    case Closing(ch) => assert Enabled(s, Close);
    case Broadcasting(todo) =>
      if todo == {} {
        assert Enabled(s, Done);
      } else {
        var ch :| ch in todo;
        assert Enabled(s, Offer(ch));
      }
  }

  /** The state when everyone left has been offered the message. */
  function Finished(s: State): State
    requires s.holder.Broadcasting? && s.log != []
  {
    s.(holder := Nobody,
       queues := map ch | ch in s.queues :: if ch in s.holder.todo then Offered(s.queues[ch], |s.log| - 1) else s.queues[ch])
  }

  /** The order in which subscribers are served makes no difference. */
  lemma AnyOrder(s: State, ch: nat)
    requires Inv(s) && s.holder.Broadcasting?
    ensures s.holder.todo == {} ==> Finished(s) == Next(s, Done)
    ensures Enabled(s, Offer(ch)) ==> Finished(Next(s, Offer(ch))) == Finished(s)
  {
    hide Accounts, Offered;
    if s.holder.todo == {} {
      assert Finished(s).queues == s.queues;
    }
    if Enabled(s, Offer(ch)) {
      assert Finished(Next(s, Offer(ch))).queues == Finished(s).queues;
    }
  }

  /** The next subscriber in turn. */
  lemma OneMore(s: State, ch: nat)
    requires Inv(s) && s.holder.Broadcasting? && ch in s.holder.todo
    ensures Enabled(s, Offer(ch)) && s.queues[ch].closes == 0
    ensures Inv(Next(s, Offer(ch))) && Finished(Next(s, Offer(ch))) == Finished(s)
    ensures Next(s, Offer(ch)).broken == s.broken
  {
    hide Accounts, Offered, Finished;
    AnyOrder(s, ch);
    InvKept(s, Offer(ch));
  }

  // ---- What a reader gets ----

  /** A message is missed exactly by the queues that are full when it is offered. */
  lemma MissedExactly(s: State, ch: nat)
    requires Inv(s) && Enabled(s, Offer(ch))
    ensures |s.log| - 1 in Next(s, Offer(ch)).queues[ch].missed <==> |s.queues[ch].waiting| == 8
  {
  }

  /** It is missed for good: no later step brings it. */
  lemma MissedForGood(s: State, a: Step, ch: nat, n: nat)
    requires Inv(s) && Enabled(s, a) && ch in s.queues && n in s.queues[ch].missed
    ensures ch in Next(s, a).queues && n in Next(s, a).queues[ch].missed
    ensures n !in Next(s, a).queues[ch].taken
  {
    InvKept(s, a);
  }

  lemma LastIsGreatest(ns: seq<nat>, i: nat)
    requires Ascending(ns) && i < |ns|
    ensures ns[i] <= ns[|ns| - 1]
  {
  }

  /** A reader that is through with its queue has the newest message exactly when
      its queue was not full at that broadcast. */
  lemma NewestSeenExactly(s: State, ch: nat)
    requires Inv(s) && s.holder.Nobody? && ch in s.subs && s.queues[ch].waiting == [] && s.queues[ch].since < |s.log|
    ensures var q := s.queues[ch];
      (q.taken != [] && q.taken[|q.taken| - 1] == |s.log| - 1) <==> |s.log| - 1 !in q.missed
  {
    var q := s.queues[ch];
    assert q.taken + q.waiting == q.taken;
    var newest := |s.log| - 1;
    if newest !in q.missed {
      var i :| 0 <= i < |q.taken| && q.taken[i] == newest;
      LastIsGreatest(q.taken, i);
      assert q.taken[|q.taken| - 1] in q.taken;
    } else if q.taken != [] {
      assert q.taken[|q.taken| - 1] in q.taken;
    }
  }

  /** The queue after m more messages while its reader stalls. */
  function Stalled(q: Queue, m: nat): Queue {
    if m == 0 then q else Offered(Stalled(q, m - 1), q.until + m - 1)
  }

  /** A new subscriber that reads nothing keeps the first eight messages and misses
      all the others, the last one included: the newest snapshot it will ever see
      may be an old one, unless another broadcast follows. */
  lemma {:induction false} StalledKeepsOldest(first: nat, m: nat)
    ensures var q := Stalled(Queue(first, first, [], [], {}, 0), m);
      && q.until == first + m && q.taken == []
      && q.waiting == seq(if m < 8 then m else 8, i => first + i)
      && forall n: nat :: n in q.missed <==> first + 8 <= n < first + m
  {
    if m > 0 {
      StalledKeepsOldest(first, m - 1);
    }
  }

  // ---- The object ----

  class Hub {
    var subs: set<nat>
    var queues: map<nat, Queue>
    var log: seq<string>
    var next: nat

    function View(): State
      reads this
    {
      State(subs, queues, log, Nobody, false)
    }

    ghost predicate Valid()
      reads this
    {
      Inv(View()) && forall ch :: ch in queues ==> ch < next
    }

    constructor ()
      ensures Valid() && View() == State({}, map[], [], Nobody, false)
    {
      subs, queues, log, next := {}, map[], [], 0;
    }

    method Register() returns (ch: nat)
      requires Valid()
      modifies this
      ensures Valid() && Enabled(old(View()), Subscribe(ch)) && View() == Next(old(View()), Subscribe(ch))
    {
      hide Inv;
      InvKept(View(), Subscribe(next));
      ch := next;
      next := next + 1;
      queues := queues[ch := Queue(|log|, |log|, [], [], {}, 0)];
      subs := subs + {ch};
    }

    /** Idempotent: only a subscriber's queue is closed. */
    method Leave(ch: nat)
      requires Valid()
      modifies this`subs, this`queues
      ensures Valid()
      ensures var left := Next(old(View()), Unsubscribe(ch));
        View() == if ch in old(subs) && Enabled(left, Close) then Next(left, Close) else old(View())
      ensures ch !in subs
    {
      if ch in subs {
        ghost var left := Next(View(), Unsubscribe(ch));
        InvKept(View(), Unsubscribe(ch));
        InvKept(left, Close);
        subs := subs - {ch};
        queues := queues[ch := queues[ch].(closes := queues[ch].closes + 1)];
      }
    }

    /** Never blocks: a full queue is passed over. */
    method Send(ch: nat)
      requires ch in queues && queues[ch].closes == 0 && log != []
      modifies this`queues
      ensures queues == old(queues)[ch := Offered(old(queues)[ch], |log| - 1)]
    {
      var q := queues[ch];
      if |q.waiting| < CAPACITY {
        queues := queues[ch := q.(waiting := q.waiting + [|log| - 1], until := |log|)];
      } else {
        queues := queues[ch := q.(missed := q.missed + {|log| - 1}, until := |log|)];
      }
    }

    method Publish(msg: string)
      requires Valid()
      modifies this`queues, this`log
      ensures Valid() && View() == Finished(Next(old(View()), Broadcast(msg)))
    {
      hide Offered, Inv, Finished;
      ghost var s := Next(View(), Broadcast(msg));
      InvKept(View(), Broadcast(msg));
      log := log + [msg];
      var todo := subs;
      while todo != {}
        invariant todo <= subs && log == old(log) + [msg] && queues.Keys == old(queues).Keys
        invariant s == State(subs, queues, log, Broadcasting(todo), false)
        invariant Inv(s) && Finished(s) == Finished(Next(old(View()), Broadcast(msg)))
        decreases |todo|
      {
        var ch :| ch in todo;
        OneMore(s, ch);
        s := Next(s, Offer(ch));
        Send(ch);
        todo := todo - {ch};
      }
      AnyOrder(s, 0);
      InvKept(s, Done);
    }

    /** A reader's turn; none if its queue is empty. */
    method Receive(ch: nat) returns (msg: Option<string>)
      requires Valid() && ch in queues
      modifies this`queues
      ensures Valid()
      ensures msg.None? <==> old(queues)[ch].waiting == []
      ensures msg.None? ==> View() == old(View())
      ensures msg.Some? ==> View() == Next(old(View()), Take(ch)) && old(queues)[ch].waiting[0] < |log| && msg.value == log[old(queues)[ch].waiting[0]]
    {
      var q := queues[ch];
      if q.waiting == [] {
        return None;
      }
      InvKept(View(), Take(ch));
      assert q.waiting[0] in q.taken + q.waiting;
      msg := Some(log[q.waiting[0]]);
      queues := queues[ch := q.(taken := q.taken + [q.waiting[0]], waiting := q.waiting[1..])];
    }
  }
}
