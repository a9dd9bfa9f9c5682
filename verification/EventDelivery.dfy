/** The queue thread hands each event to the single worker of every subscribed callback, while
    callbacks come and go and new events are queued. */
module EventDelivery {
  import opened Wrappers
  import opened PagedEvents

  /** A subscriber id with a callback id. */
  type Key = (string, string)

  /** `since` is the position in the queue of the first event meant for the callback, `submitted`
      what its worker was given, in order, and `ran` how many of those it has run. */
  datatype Callback = Callback(since: nat, submitted: seq<Event>, ran: nat)

  /** `queue` is everything ever put; `taken` of it has been taken by the queue thread, which is
      handing out `current` to the callbacks in `todo`. */
  datatype State = State(queue: seq<Event>, taken: nat, current: Option<Event>, todo: set<Key>, callbacks: map<Key,
                         Callback>)

  datatype Step =
    | Put(e: Event)
    | Take
    | Submit(k: Key)
    | Done
    | Subscribe(k: Key, seesCurrent: bool)
    | Unsubscribe(k: Key)
    | Run(k: Key)

  predicate Enabled(s: State, step: Step) {
    match step
    case Put(_) => true
    case Take => s.current.None? && s.taken < |s.queue|
    case Submit(k) => s.current.Some? && k in s.todo
    case Done => s.current.Some? && s.todo == {}
    case Subscribe(k, seesCurrent) => k !in s.callbacks && (seesCurrent ==> s.current.Some?)
    case Unsubscribe(k) => k in s.callbacks
    case Run(k) => k in s.callbacks && s.callbacks[k].ran < |s.callbacks[k].submitted|
  }

  /** A callback subscribed while an event is handed out may or may not still get that event: it
      depends on how far the thread is, and `seesCurrent` leaves it open.  One that left and came
      back in between finds its key still on the list. */
  function Next(s: State, step: Step): State
    requires Enabled(s, step)
  {
    match step
    case Put(e) => s.(queue := s.queue + [e])
    case Take => s.(taken := s.taken + 1, current := Some(s.queue[s.taken]), todo := s.callbacks.Keys)
    case Submit(k) =>
      var t := s.(todo := s.todo - {k});
      if k in s.callbacks then
        var c := s.callbacks[k];
        t.(callbacks := s.callbacks[k := c.(submitted := c.submitted + [s.current.value])])
      else t
    case Done => s.(current := None)
    case Subscribe(k, seesCurrent) =>
      var gets := s.current.Some? && (seesCurrent || k in s.todo);
      s.(todo := if gets then s.todo + {k} else s.todo,
         callbacks := s.callbacks[k := Callback(if gets && s.taken > 0 then s.taken - 1 else s.taken, [], 0)])
    case Unsubscribe(k) => s.(callbacks := s.callbacks - {k})
    case Run(k) => s.(callbacks := s.callbacks[k := s.callbacks[k].(ran := s.callbacks[k].ran + 1)])
  }

  /** How much of the queue has been handed to a callback. */
  function Handed(s: State, k: Key): int {
    if s.current.Some? && k in s.todo then s.taken - 1 else s.taken
  }

  predicate Inv(s: State) {
    && s.taken <= |s.queue|
    && (s.current.Some? ==> s.taken > 0 && s.current.value == s.queue[s.taken - 1])
    && (s.current.None? ==> s.todo == {})
    && (forall k | k in s.callbacks :: InOrder(s, k))
  }

  /** The callback was given exactly the stretch of the queue since its subscription, in order. */
  predicate InOrder(s: State, k: Key)
    requires k in s.callbacks
  {
    var c := s.callbacks[k];
    && c.since <= Handed(s, k) <= |s.queue|
    && c.submitted == s.queue[c.since..Handed(s, k)]
    && c.ran <= |c.submitted|
  }

  lemma CallbackKept(s: State, step: Step, k: Key)
    requires Inv(s) && Enabled(s, step) && k in Next(s, step).callbacks
    ensures InOrder(Next(s, step), k)
  {
    if k in s.callbacks {
      assert InOrder(s, k);
      hide InOrder, Inv;
      KnownCallbackKept(s, step, k);
    }
  }

  lemma KnownCallbackKept(s: State, step: Step, k: Key)
    requires s.taken <= |s.queue| && (s.current.Some? ==> s.taken > 0 && s.current.value == s.queue[s.taken - 1])
    requires Enabled(s, step) && k in s.callbacks && InOrder(s, k) && k in Next(s, step).callbacks
    requires s.current.None? ==> s.todo == {}
    ensures InOrder(Next(s, step), k)
  {
    var c := s.callbacks[k];
    match step
    case Put(e) =>
      assert (s.queue + [e])[c.since..Handed(s, k)] == s.queue[c.since..Handed(s, k)];
    case Submit(x) =>
      if k == x {
        assert s.queue[c.since..s.taken] == s.queue[c.since..s.taken - 1] + [s.queue[s.taken - 1]];
      }
    case _ =>
  }

  lemma StepKeepsInv(s: State, step: Step)
    requires Inv(s) && Enabled(s, step)
    ensures Inv(Next(s, step))
  {
    forall k | k in Next(s, step).callbacks ensures InOrder(Next(s, step), k) {
      CallbackKept(s, step, k);
    }
    hide InOrder;
  }

  predicate Possible(s: State, steps: seq<Step>)
    decreases |steps|
  {
    steps == [] || (Enabled(s, steps[0]) && Possible(Next(s, steps[0]), steps[1..]))
  }

  function RunFrom(s: State, steps: seq<Step>): State
    requires Possible(s, steps)
    decreases |steps|
  {
    if steps == [] then s else RunFrom(Next(s, steps[0]), steps[1..])
  }

  const INITIAL := State([], 0, None, {}, map[])

  lemma {:induction false} RunKeepsInv(s: State, steps: seq<Step>)
    requires Inv(s) && Possible(s, steps)
    ensures Inv(RunFrom(s, steps))
    decreases |steps|
  {
    hide Inv, Next, Enabled;
    if steps != [] {
      StepKeepsInv(s, steps[0]);
      RunKeepsInv(Next(s, steps[0]), steps[1..]);
    }
  }

  /** Whatever happens, a subscribed callback has been given a gapless stretch of the queue that
      begins at its subscription and reaches to the event being handed out, and has run a prefix of it. */
  lemma DeliveredInOrder(steps: seq<Step>, k: Key)
    requires Possible(INITIAL, steps) && k in RunFrom(INITIAL, steps).callbacks
    ensures var s := RunFrom(INITIAL, steps);
      var c := s.callbacks[k];
      && c.since <= Handed(s, k) <= |s.queue| && c.ran <= |c.submitted|
      && c.submitted == s.queue[c.since..Handed(s, k)]
      && c.submitted[..c.ran] == s.queue[c.since..c.since + c.ran]
  {
    var s := RunFrom(INITIAL, steps);
    assert Inv(INITIAL);
    RunKeepsInv(INITIAL, steps);
    assert InOrder(s, k);
  }

  /** Between the subscription of a callback and now, its starting point does not move. */
  lemma {:induction false} SubscriptionPersists(s: State, steps: seq<Step>, k: Key)
    requires Possible(s, steps) && k in s.callbacks
    requires forall i | 0 <= i < |steps| :: steps[i] != Unsubscribe(k)
    ensures var t := RunFrom(s, steps);
      k in t.callbacks && t.callbacks[k].since == s.callbacks[k].since
      && s.callbacks[k].submitted <= t.callbacks[k].submitted
    decreases |steps|
  {
    if steps != [] {
      assert steps[0] != Unsubscribe(k);
      SubscriptionPersists(Next(s, steps[0]), steps[1..], k);
    }
  }

  /** A worker runs what it was given one event after the other, and nobody else notices. */
  lemma RunsNext(s: State, k: Key)
    requires Inv(s) && Enabled(s, Run(k))
    ensures var n, c := Next(s, Run(k)), s.callbacks[k];
      && c.ran < |c.submitted| && k in n.callbacks && n.callbacks[k].ran <= |n.callbacks[k].submitted|
      && n.callbacks[k].submitted[..n.callbacks[k].ran] == c.submitted[..c.ran] + [c.submitted[c.ran]]
      && n.callbacks[k].submitted == c.submitted && n.callbacks[k].since == c.since
      && n.callbacks - {k} == s.callbacks - {k} && n.queue == s.queue && n.taken == s.taken && n.todo == s.todo
  {
    assert InOrder(s, k);
  }

  /** A callback that has been taken out is given nothing more, whatever happens, until it is subscribed again. */
  lemma {:induction false} StaysUnsubscribed(s: State, steps: seq<Step>, k: Key)
    requires Possible(s, steps) && k !in s.callbacks
    requires forall i | 0 <= i < |steps| :: !(steps[i].Subscribe? && steps[i].k == k)
    ensures k !in RunFrom(s, steps).callbacks
    decreases |steps|
  {
    if steps != [] {
      assert !(steps[0].Subscribe? && steps[0].k == k);
      StaysUnsubscribed(Next(s, steps[0]), steps[1..], k);
    }
  }

  /** Taking a callback out takes away nobody else's events, and a callback subscribed again begins with the
      events that had not been taken from the queue, or with the one being handed out. */
  lemma UnsubscribedExactly(s: State, steps: seq<Step>, k: Key)
    requires Inv(s) && Enabled(s, Unsubscribe(k)) && Possible(Next(s, Unsubscribe(k)), steps)
    requires forall i | 0 <= i < |steps| :: !(steps[i].Subscribe? && steps[i].k == k)
    ensures var n, t := Next(s, Unsubscribe(k)), RunFrom(Next(s, Unsubscribe(k)), steps);
      && n.queue == s.queue && n.taken == s.taken && n.current == s.current
      && (forall x :: x in n.callbacks <==> x in s.callbacks && x != k)
      && (forall x | x in n.callbacks :: n.callbacks[x] == s.callbacks[x])
      && k !in t.callbacks
      && forall sees | Enabled(t, Subscribe(k, sees)) ::
           var c := Next(t, Subscribe(k, sees)).callbacks[k];
           c.submitted == [] && c.ran == 0 && t.taken - 1 <= c.since <= t.taken && (t.current.None? ==> c.since == t.taken)
  {
    StepKeepsInv(s, Unsubscribe(k));
    StaysUnsubscribed(Next(s, Unsubscribe(k)), steps, k);
    RunKeepsInv(Next(s, Unsubscribe(k)), steps);
    hide RunFrom, Possible, InOrder;
  }

  // ---- One turn of the queue thread, without interference ----

  function Given(callbacks: map<Key, Callback>, e: Event, done: set<Key>): map<Key, Callback> {
    map k | k in callbacks :: if k in done then callbacks[k].(submitted := callbacks[k].submitted + [e]) else callbacks[k]
  }

  /** The next event is taken and given to every callback. */
  function Processed(s: State): State
    requires s.taken < |s.queue|
  {
    State(s.queue, s.taken + 1, None, {}, Given(s.callbacks, s.queue[s.taken], s.callbacks.Keys))
  }

  lemma GivenOne(callbacks: map<Key, Callback>, e: Event, done: set<Key>, k: Key)
    requires k in callbacks && k !in done
    ensures var g := Given(callbacks, e, done);
      k in g && Given(callbacks, e, done + {k}) == g[k := g[k].(submitted := g[k].submitted + [e])]
  {
  }

  class EventQueue {
    var queue: seq<Event>
    var taken: nat
    var callbacks: map<Key, Callback>

    ghost function View(): State
      reads this
    {
      State(queue, taken, None, {}, callbacks)
    }

    constructor ()
      ensures View() == INITIAL
    {
      queue, taken, callbacks := [], 0, map[];
    }

    method Put(e: Event)
      modifies this`queue
      ensures View() == Next(old(View()), Step.Put(e))
    {
      queue := queue + [e];
    }

    /** `subscribe`; false is the error for a callback id that is taken. */
    method Subscribe(k: Key) returns (ok: bool)
      modifies this`callbacks
      ensures ok <==> k !in old(callbacks)
      ensures View() == if ok then Next(old(View()), Step.Subscribe(k, false)) else old(View())
    {
      if k in callbacks {
        return false;
      }
      callbacks := callbacks[k := Callback(taken, [], 0)];
      ok := true;
    }

    method Unsubscribe(k: Key)
      modifies this`callbacks
      ensures View() == if k in old(callbacks) then Next(old(View()), Step.Unsubscribe(k)) else old(View())
    {
      if k !in callbacks {
        return;
      }
      callbacks := callbacks - {k};
    }

    /** One round of `_process_queue`, over the keys in the order the thread visits them. */
    method ProcessNext(order: seq<Key>) returns (got: bool)
      requires forall k :: k in order <==> k in callbacks
      requires forall i, j | 0 <= i < j < |order| :: order[i] != order[j]
      modifies this
      ensures got <==> old(taken) < |old(queue)|
      ensures View() == if got then Processed(old(View())) else old(View())
    {
      if taken >= |queue| {
        return false;
      }
      var event := queue[taken];
      taken := taken + 1;
      ghost var before := callbacks;
      assert callbacks == Given(before, event, {});
      hide Given;
      ghost var done: set<Key> := {};
      for i := 0 to |order|
        invariant callbacks == Given(before, event, done)
        invariant queue == old(queue) && taken == old(taken) + 1
        invariant forall j | 0 <= j < |order| :: order[j] in done <==> j < i
        invariant done <= before.Keys
      {
        var k := order[i];
        GivenOne(before, event, done, k);
        if k in callbacks {
          callbacks := callbacks[k := callbacks[k].(submitted := callbacks[k].submitted + [event])];
        }
        done := done + {k};
      }
      assert done == before.Keys;
      got := true;
    }
  }

  /** The steps of one such round. */
  function Submits(order: seq<Key>): seq<Step> {
    if order == [] then [Done] else [Submit(order[0])] + Submits(order[1..])
  }

  lemma {:induction false} SubmitsRun(s: State, order: seq<Key>)
    requires s.current.Some? && s.todo <= s.callbacks.Keys
    requires forall k :: k in order <==> k in s.todo
    requires forall i, j | 0 <= i < j < |order| :: order[i] != order[j]
    ensures Possible(s, Submits(order))
    ensures RunFrom(s, Submits(order)) == State(s.queue, s.taken, None, {}, Given(s.callbacks, s.current.value, s.todo))
    decreases |order|
  {
    if order == [] {
      assert s.todo == {};
      assert Given(s.callbacks, s.current.value, {}) == s.callbacks;
      assert Submits(order)[1..] == [];
      assert Possible(Next(s, Done), []);
    } else {
      var n := Next(s, Submit(order[0]));
      assert order[0] in s.todo;
      forall k ensures k in order[1..] <==> k in n.todo {
        if k in order && k != order[0] { var i :| 0 <= i < |order| && order[i] == k; assert order[1..][i - 1] == k; }
      }
      SubmitsRun(n, order[1..]);
      assert Submits(order)[1..] == Submits(order[1..]);
      assert Given(n.callbacks, s.current.value, n.todo) == Given(s.callbacks, s.current.value, s.todo);
    }
  }

  /** A round of the queue thread is a run of the interleaved steps. */
  lemma RoundIsARun(s: State, order: seq<Key>)
    requires s.current.None? && s.taken < |s.queue|
    requires forall k :: k in order <==> k in s.callbacks
    requires forall i, j | 0 <= i < j < |order| :: order[i] != order[j]
    ensures Possible(s, [Take] + Submits(order)) && RunFrom(s, [Take] + Submits(order)) == Processed(s)
  {
    SubmitsRun(Next(s, Take), order);
    assert ([Take] + Submits(order))[1..] == Submits(order);
  }
}
