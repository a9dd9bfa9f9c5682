/** The event stream as a whole: writers adding events side by side, and the queue thread handing them
    to the subscribed callbacks, over one opening of the stream. */
module StreamDelivery {
  import opened Wrappers
  import opened PagedEvents
  import ES = EventStream
  import ED = EventDelivery

  datatype State = State(stream: ES.State, delivery: ED.State)

  /** `Write` is a step of a writer; queueing an event is one step of both sides. */
  datatype Step = Write(w: ES.Step) | Deliver(d: ED.Step)

  predicate Enabled(s: State, step: Step) {
    match step
    case Write(w) => ES.Enabled(s.stream, w) && !w.Reopen?
    case Deliver(d) => ED.Enabled(s.delivery, d) && !d.Put?
  }

  function Next(cacheSize: int, s: State, step: Step): State
    requires Enabled(s, step)
  {
    match step
    case Write(w) =>
      State(ES.Next(cacheSize, s.stream, w),
            if w.Put? then ED.Next(s.delivery, ED.Put(s.stream.writers[w.w].e)) else s.delivery)
    case Deliver(d) => s.(delivery := ED.Next(s.delivery, d))
  }

  function Initial(writers: nat): State {
    State(ES.Initial(writers), ED.INITIAL)
  }

  predicate Possible(cacheSize: int, s: State, steps: seq<Step>)
    decreases |steps|
  {
    steps == [] || (Enabled(s, steps[0]) && Possible(cacheSize, Next(cacheSize, s, steps[0]), steps[1..]))
  }

  function RunFrom(cacheSize: int, s: State, steps: seq<Step>): State
    requires Possible(cacheSize, s, steps)
    decreases |steps|
  {
    if steps == [] then s else RunFrom(cacheSize, Next(cacheSize, s, steps[0]), steps[1..])
  }

  predicate Inv(cacheSize: int, s: State) {
    ES.Inv(cacheSize, s.stream) && ED.Inv(s.delivery) && s.delivery.queue == s.stream.sh.queue
  }

  lemma StepKeepsInv(cacheSize: int, s: State, step: Step)
    requires Inv(cacheSize, s) && Enabled(s, step)
    ensures Inv(cacheSize, Next(cacheSize, s, step))
  {
    SameQueue(cacheSize, s, step);
    hide ES.Inv, ED.Inv;
    match step
    case Write(w) =>
      ES.StepKeepsInv(cacheSize, s.stream, w);
      if w.Put? { ED.StepKeepsInv(s.delivery, ED.Put(s.stream.writers[w.w].e)); }
    case Deliver(d) => ED.StepKeepsInv(s.delivery, d);
  }

  lemma SameQueue(cacheSize: int, s: State, step: Step)
    requires s.delivery.queue == s.stream.sh.queue && Enabled(s, step)
    ensures Next(cacheSize, s, step).delivery.queue == Next(cacheSize, s, step).stream.sh.queue
  {
  }

  lemma {:induction false} RunKeepsInv(cacheSize: int, s: State, steps: seq<Step>)
    requires Inv(cacheSize, s) && Possible(cacheSize, s, steps)
    ensures Inv(cacheSize, RunFrom(cacheSize, s, steps))
    decreases |steps|
  {
    hide Inv, Next, Enabled;
    if steps != [] {
      StepKeepsInv(cacheSize, s, steps[0]);
      RunKeepsInv(cacheSize, Next(cacheSize, s, steps[0]), steps[1..]);
    }
  }

  lemma Reachable(cacheSize: int, writers: nat, steps: seq<Step>)
    requires cacheSize > 0 && Possible(cacheSize, Initial(writers), steps)
    ensures Inv(cacheSize, RunFrom(cacheSize, Initial(writers), steps))
  {
    ES.Reachable(cacheSize, writers, []);
    RunKeepsInv(cacheSize, Initial(writers), steps);
  }

  /** At any moment of any run, a callback has been given no event twice, and of the events of one
      writer an earlier one before a later one. */
  lemma GivenInWriterOrder(cacheSize: int, writers: nat, steps: seq<Step>, k: ED.Key)
    requires cacheSize > 0 && Possible(cacheSize, Initial(writers), steps)
    requires k in RunFrom(cacheSize, Initial(writers), steps).delivery.callbacks
    ensures var s := RunFrom(cacheSize, Initial(writers), steps);
      var given := s.delivery.callbacks[k].submitted;
      && (forall i | 0 <= i < |given| :: 0 <= given[i].id < |s.stream.owner|)
      && (forall i, j | 0 <= i < j < |given| :: given[i].id != given[j].id)
      && (forall i, j | 0 <= i < j < |given| && s.stream.owner[given[i].id] == s.stream.owner[given[j].id] ::
            given[i].id < given[j].id)
  {
    var s := RunFrom(cacheSize, Initial(writers), steps);
    Reachable(cacheSize, writers, steps);
    hide RunFrom, Possible, Initial, ES.PagesOk, ES.StoreOk, ES.WriterOk, ES.FilesOk, ES.QueuedOrHeld;
    assert ED.InOrder(s.delivery, k);
    var c, q := s.delivery.callbacks[k], s.stream.sh.queue;
    assert forall i | 0 <= i < |c.submitted| :: c.submitted[i] == q[c.since + i];
  }

  /** With no add in flight and everything handed out, a callback subscribed before the first event
      has been given every event of every writer exactly once. */
  lemma GivenExactlyOnce(cacheSize: int, writers: nat, steps: seq<Step>, k: ED.Key)
    requires cacheSize > 0 && Possible(cacheSize, Initial(writers), steps)
    requires var s := RunFrom(cacheSize, Initial(writers), steps);
      && ES.Quiet(s.stream) && k in s.delivery.callbacks && s.delivery.callbacks[k].since == 0
      && ED.Handed(s.delivery, k) == |s.delivery.queue|
    ensures var s := RunFrom(cacheSize, Initial(writers), steps);
      multiset(s.delivery.callbacks[k].submitted) == multiset(s.stream.log)
  {
    var s := RunFrom(cacheSize, Initial(writers), steps);
    Reachable(cacheSize, writers, steps);
    hide RunFrom, Possible, Initial, ES.PagesOk, ES.StoreOk, ES.WriterOk, ES.FilesOk, ES.OrderOk;
    assert ED.InOrder(s.delivery, k);
    var q := s.stream.sh.queue;
    assert s.delivery.callbacks[k].submitted == q[0..|q|] == q;
    assert ES.LogOk(s.stream) && ES.QueueOk(s.stream) && ES.QueuedOrHeld(s.stream);
    hide ES.LogOk, ES.QueueOk, ES.QueuedOrHeld, ES.Quiet;
    forall e: Event ensures multiset(q)[e] == multiset(s.stream.log)[e] {
      ES.QueuedOnce(s.stream, e);
    }
  }

  /** While a callback stays subscribed its starting point does not move, whatever the writers do. */
  lemma {:induction false} SubscriptionPersists(cacheSize: int, s: State, steps: seq<Step>, k: ED.Key)
    requires Possible(cacheSize, s, steps) && k in s.delivery.callbacks
    requires forall i | 0 <= i < |steps| :: steps[i] != Deliver(ED.Unsubscribe(k))
    ensures var t := RunFrom(cacheSize, s, steps);
      k in t.delivery.callbacks && t.delivery.callbacks[k].since == s.delivery.callbacks[k].since
    decreases |steps|
  {
    hide ES.Next, ES.Enabled;
    if steps != [] {
      assert steps[0] != Deliver(ED.Unsubscribe(k));
      SubscriptionPersists(cacheSize, Next(cacheSize, s, steps[0]), steps[1..], k);
    }
  }
}
