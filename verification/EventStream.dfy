/** Writers that add events to one stream at the same time, in the atomic pieces the lock leaves:
    taking an id and a place on the write page, writing the event file, checking and storing the
    cache page, and queueing the event. */
module EventStream {
  import opened Wrappers
  import opened PagedEvents

  /** What the threads share.  `pages` are the page lists handed out so far; a writer keeps the
      index of the list it appended to, `current` is the list new events go to. */
  datatype Shared = Shared(curId: int, pages: seq<seq<Event>>, current: nat, store: Store, queue: seq<Event>)

  // ---- The atomic pieces ----

  predicate HasCurrent(sh: Shared) {
    sh.current < |sh.pages|
  }

  /** The locked section: id, place on the page, and a new page if this one is full. */
  function TakeId(cacheSize: int, sh: Shared, body: string): Shared
    requires HasCurrent(sh)
  {
    var page := sh.pages[sh.current] + [Event(sh.curId, body)];
    var pages := sh.pages[sh.current := page];
    if |page| == cacheSize then
      sh.(curId := sh.curId + 1, pages := pages + [[]], current := |pages|)
    else sh.(curId := sh.curId + 1, pages := pages)
  }

  function WriteFile(sh: Shared, e: Event): Shared {
    sh.(store := sh.store.(files := sh.store.files[e.id := e]))
  }

  function StorePage(cacheSize: int, sh: Shared, page: nat): Shared
    requires page < |sh.pages| && sh.pages[page] != []
  {
    var start := sh.pages[page][0].id;
    sh.(store := sh.store.(pages := sh.store.pages[(start, start + cacheSize) := sh.pages[page]]))
  }

  function Enqueue(sh: Shared, e: Event): Shared {
    sh.(queue := sh.queue + [e])
  }

  function Reopened(sh: Shared, nextId: int): Shared {
    sh.(curId := nextId, pages := [[]], current := 0)
  }

  // ---- One stream used by one thread ----

  class EventStream {
    const cacheSize: int
    var curId: int
    var pages: seq<seq<Event>>
    var current: nat
    var store: Store
    var queue: seq<Event>

    ghost function View(): Shared
      reads this
    {
      Shared(curId, pages, current, store, queue)
    }

    constructor (store: Store, nextId: int, cacheSize: int)
      requires cacheSize > 0
      ensures View() == Shared(nextId, [[]], 0, store, []) && this.cacheSize == cacheSize
    {
      this.cacheSize := cacheSize;
      this.store := store;
      curId, pages, current, queue := nextId, [[]], 0, [];
    }

    method TakeEventId(body: string) returns (e: Event, page: nat)
      requires HasCurrent(View())
      modifies this
      ensures e == Event(old(curId), body) && page == old(current)
      ensures View() == TakeId(cacheSize, old(View()), body)
    {
      e, page := Event(curId, body), current;
      curId := curId + 1;
      pages := pages[page := pages[page] + [e]];
      if |pages[page]| == cacheSize {
        current := |pages|;
        pages := pages + [[]];
      }
    }

    method StoreCachePage(page: nat)
      requires page < |pages| && cacheSize > 0
      modifies this`store
      ensures View() == if |pages[page]| < cacheSize then old(View()) else StorePage(cacheSize, old(View()), page)
    {
      if |pages[page]| < cacheSize {
        return;
      }
      var start := pages[page][0].id;
      store := store.(pages := store.pages[(start, start + cacheSize) := pages[page]]);
    }

    /** `add_event` for an event without an id; `None` is the error for one that has an id. */
    method AddEvent(id: int, body: string) returns (added: Option<Event>)
      requires HasCurrent(View()) && cacheSize > 0
      modifies this
      ensures id != -1 ==> added == None && View() == old(View())
      ensures id == -1 ==> added == Some(Event(old(curId), body))
      ensures id == -1 ==> View() == AddAlone(cacheSize, old(View()), body)
    {
      if id != -1 {
        return None;
      }
      var e, page := TakeEventId(body);
      store := store.(files := store.files[e.id := e]);
      StoreCachePage(page);
      queue := queue + [e];
      return Some(e);
    }
  }

  /** `add_event` without interference. */
  function AddAlone(cacheSize: int, sh: Shared, body: string): Shared
    requires HasCurrent(sh) && cacheSize > 0
  {
    var e := Event(sh.curId, body);
    var sh' := WriteFile(TakeId(cacheSize, sh, body), e);
    Enqueue(if |sh'.pages[sh.current]| < cacheSize then sh' else StorePage(cacheSize, sh', sh.current), e)
  }

  // ---- Writers side by side ----

  /** Where a writer stands: the event it is adding and the page list it holds. */
  datatype Writer =
    | Idle
    | Taken(e: Event, page: nat)
    | Filed(e: Event, page: nat)
    | Full(e: Event, page: nat)
    | Stored(e: Event)

  /** `log` records every event an id was given to, `owner` the writer that took it. */
  datatype State = State(sh: Shared, writers: seq<Writer>, log: seq<Event>, owner: seq<nat>)

  datatype Step =
    | Begin(w: nat, body: string)
    | File(w: nat)
    | Check(w: nat)
    | Cache(w: nat)
    | Put(w: nat)
    | Reopen(nextId: int)

  predicate Enabled(s: State, step: Step) {
    match step
    case Begin(w, _) => w < |s.writers| && s.writers[w].Idle? && HasCurrent(s.sh)
    case File(w) => w < |s.writers| && s.writers[w].Taken?
    case Check(w) => w < |s.writers| && s.writers[w].Filed? && s.writers[w].page < |s.sh.pages|
    case Cache(w) => w < |s.writers| && s.writers[w].Full?
        && s.writers[w].page < |s.sh.pages| && s.sh.pages[s.writers[w].page] != []
    case Put(w) => w < |s.writers| && s.writers[w].Stored?
    case Reopen(nextId) => Quiet(s) && IsNextId(s.sh.store.files.Keys, nextId)
  }

  /** No add is in flight. */
  predicate Quiet(s: State) {
    forall w | 0 <= w < |s.writers| :: s.writers[w].Idle?
  }

  function Next(cacheSize: int, s: State, step: Step): State
    requires Enabled(s, step)
  {
    match step
    case Begin(w, body) =>
      var e := Event(s.sh.curId, body);
      State(TakeId(cacheSize, s.sh, body), s.writers[w := Taken(e, s.sh.current)], s.log + [e], s.owner + [w])
    case File(w) =>
      s.(sh := WriteFile(s.sh, s.writers[w].e), writers := s.writers[w := Filed(s.writers[w].e, s.writers[w].page)])
    case Check(w) =>
      var page := s.writers[w].page;
      s.(writers := s.writers[w := if |s.sh.pages[page]| < cacheSize then Stored(s.writers[w].e)
                                   else Full(s.writers[w].e, page)])
    case Cache(w) =>
      s.(sh := StorePage(cacheSize, s.sh, s.writers[w].page), writers := s.writers[w := Stored(s.writers[w].e)])
    case Put(w) =>
      s.(sh := Enqueue(s.sh, s.writers[w].e), writers := s.writers[w := Idle])
    case Reopen(nextId) => s.(sh := Reopened(s.sh, nextId))
  }

  function Initial(writers: nat): State {
    State(Shared(0, [[]], 0, Store(map[], map[]), []), seq(writers, _ => Idle), [], [])
  }

  /** The steps can be taken one after the other from `s`. */
  predicate Possible(cacheSize: int, s: State, steps: seq<Step>)
    decreases |steps|
  {
    steps == [] || (Enabled(s, steps[0]) && Possible(cacheSize, Next(cacheSize, s, steps[0]), steps[1..]))
  }

  function RunFrom(cacheSize: int, s: State, steps: seq<Step>): State
    requires Possible(cacheSize, s, steps)
    decreases |steps|
  {
    if steps == [] then s else RunFrom(cacheSize, Next(cacheSize, s, steps[0]), steps[1..])
  }

  // ---- The invariant ----

  /** A page list is a stretch of the log, no longer than a page. */
  predicate Stretch(cacheSize: int, page: seq<Event>, log: seq<Event>) {
    && |page| <= cacheSize
    && (page != [] ==> 0 <= page[0].id && page[0].id + |page| <= |log| && page == log[page[0].id..page[0].id + |page|])
  }

  predicate LogOk(s: State) {
    && |s.log| == |s.owner| == s.sh.curId
    && (forall i | 0 <= i < |s.log| :: s.log[i].id == i)
    && (forall i | 0 <= i < |s.owner| :: s.owner[i] < |s.writers|)
  }

  predicate PagesOk(cacheSize: int, s: State) {
    && HasCurrent(s.sh)
    && (forall p | 0 <= p < |s.sh.pages| :: Stretch(cacheSize, s.sh.pages[p], s.log))
    && var page := s.sh.pages[s.sh.current];
       |page| < cacheSize && (page != [] ==> page[0].id + |page| == |s.log|)
  }

  predicate StoreOk(cacheSize: int, s: State) {
    && cacheSize > 0
    && (forall i | i in s.sh.store.files :: 0 <= i < |s.log| && s.sh.store.files[i] == s.log[i])
    && (forall k | k in s.sh.store.pages ::
          && 0 <= k.0 && k.1 == k.0 + cacheSize && k.1 <= |s.log|
          && s.sh.store.pages[k] == s.log[k.0..k.1])
  }

  predicate Holds(w: Writer, e: Event) {
    !w.Idle? && w.e == e
  }

  predicate WriterOk(cacheSize: int, s: State, w: nat)
    requires w < |s.writers|
  {
    var wr := s.writers[w];
    !wr.Idle? ==>
      && 0 <= wr.e.id < |s.log| && s.log[wr.e.id] == wr.e && wr.e.id < |s.owner| && s.owner[wr.e.id] == w
      && (!wr.Stored? ==> wr.page < |s.sh.pages|)
      && (wr.Full? ==> |s.sh.pages[wr.page]| == cacheSize)
  }

  /** Every event of the log has its file, or its writer is about to write it. */
  predicate FilesOk(s: State)
    requires LogOk(s)
  {
    forall i | 0 <= i < |s.log| ::
      i in s.sh.store.files || (s.writers[s.owner[i]].Taken? && s.writers[s.owner[i]].e == s.log[i])
  }

  /** Every event of the log is on the queue, or its writer still holds it. */
  predicate QueuedOrHeld(s: State)
    requires LogOk(s)
  {
    forall i | 0 <= i < |s.log| :: s.log[i] in s.sh.queue <==> !Holds(s.writers[s.owner[i]], s.log[i])
  }

  predicate QueueOk(s: State) {
    && (forall j | 0 <= j < |s.sh.queue| :: 0 <= s.sh.queue[j].id < |s.log| && s.log[s.sh.queue[j].id] == s.sh.queue[j])
    && (forall j, k | 0 <= j < k < |s.sh.queue| :: s.sh.queue[j].id != s.sh.queue[k].id)
  }

  /** Of one writer's events, an earlier one is queued before a later one, and what it holds is its latest. */
  predicate OrderOk(s: State)
    requires LogOk(s) && QueueOk(s)
  {
    && (forall j, k | 0 <= j < k < |s.sh.queue| && s.owner[s.sh.queue[j].id] == s.owner[s.sh.queue[k].id] ::
          s.sh.queue[j].id < s.sh.queue[k].id)
    && (forall w, i | 0 <= w < |s.writers| && !s.writers[w].Idle? && 0 <= i < |s.log| && s.owner[i] == w ::
          i <= s.writers[w].e.id)
  }

  predicate Inv(cacheSize: int, s: State) {
    && LogOk(s) && PagesOk(cacheSize, s) && StoreOk(cacheSize, s)
    && (forall w | 0 <= w < |s.writers| :: WriterOk(cacheSize, s, w))
    && FilesOk(s) && QueueOk(s) && QueuedOrHeld(s) && OrderOk(s)
  }

  // ---- Every step keeps the invariant ----

  lemma StretchGrows(cacheSize: int, page: seq<Event>, log: seq<Event>, e: Event)
    requires Stretch(cacheSize, page, log)
    ensures Stretch(cacheSize, page, log + [e])
  {
    if page != [] {
      var a := page[0].id;
      assert (log + [e])[a..a + |page|] == log[a..a + |page|];
    }
  }

  lemma CurrentGrows(cacheSize: int, page: seq<Event>, log: seq<Event>, e: Event)
    requires Stretch(cacheSize, page, log) && |page| < cacheSize && e.id == |log|
    requires page != [] ==> page[0].id + |page| == |log|
    ensures Stretch(cacheSize, page + [e], log + [e])
    ensures (page + [e])[0].id + |page + [e]| == |log| + 1
  {
    var a := (page + [e])[0].id;
    if page == [] {
      assert (log + [e])[a..a + 1] == [e] == page + [e];
    } else {
      assert (log + [e])[a..a + |page| + 1] == log[a..a + |page|] + [e];
    }
  }

  lemma LogKept(cacheSize: int, s: State, step: Step)
    requires Inv(cacheSize, s) && Enabled(s, step)
    ensures LogOk(Next(cacheSize, s, step))
  {
    hide PagesOk, StoreOk, WriterOk, FilesOk, QueueOk, QueuedOrHeld, OrderOk;
    if step.Reopen? { NextIdAfterQuiet(cacheSize, s, step.nextId); }
  }

  /** A clean restart continues with the id the stream would have given next. */
  lemma NextIdAfterQuiet(cacheSize: int, s: State, nextId: int)
    requires Inv(cacheSize, s) && Quiet(s) && IsNextId(s.sh.store.files.Keys, nextId)
    ensures nextId == s.sh.curId
  {
    hide PagesOk, WriterOk, QueueOk, QueuedOrHeld, OrderOk;
    assert forall i | 0 <= i < |s.log| :: s.writers[s.owner[i]].Idle?;
    if |s.log| > 0 { assert |s.log| - 1 in s.sh.store.files; }
    assert IsNextId(s.sh.store.files.Keys, s.sh.curId);
    NextIdUnique(s.sh.store.files.Keys, nextId, s.sh.curId);
  }

  lemma PagesKept(cacheSize: int, s: State, step: Step)
    requires Inv(cacheSize, s) && Enabled(s, step)
    ensures PagesOk(cacheSize, Next(cacheSize, s, step))
  {
    hide WriterOk, FilesOk, QueueOk, QueuedOrHeld, OrderOk, Stretch;
    var n := Next(cacheSize, s, step);
    match step
    case Begin(w, body) =>
      var e := Event(s.sh.curId, body);
      forall p | 0 <= p < |s.sh.pages| ensures Stretch(cacheSize, s.sh.pages[p], n.log) {
        StretchGrows(cacheSize, s.sh.pages[p], s.log, e);
      }
      CurrentGrows(cacheSize, s.sh.pages[s.sh.current], s.log, e);
      EmptyStretch(cacheSize, n.log);
    case Reopen(_) =>
      EmptyStretch(cacheSize, n.log);
    case _ =>
  }

  lemma EmptyStretch(cacheSize: int, log: seq<Event>)
    requires cacheSize > 0
    ensures Stretch(cacheSize, [], log)
  {
  }

  lemma StoreKept(cacheSize: int, s: State, step: Step)
    requires Inv(cacheSize, s) && Enabled(s, step)
    ensures StoreOk(cacheSize, Next(cacheSize, s, step))
  {
    hide FilesOk, QueueOk, QueuedOrHeld, OrderOk;
    match step
    case Begin(w, body) =>
      var e := Event(s.sh.curId, body);
      forall k | k in s.sh.store.pages ensures s.sh.store.pages[k] == (s.log + [e])[k.0..k.1] {
        assert (s.log + [e])[k.0..k.1] == s.log[k.0..k.1];
      }
    case File(w) =>
      assert WriterOk(cacheSize, s, w);
    case Cache(w) =>
      assert WriterOk(cacheSize, s, w);
      assert Stretch(cacheSize, s.sh.pages[s.writers[w].page], s.log);
    case _ =>
  }

  lemma WritersKept(cacheSize: int, s: State, step: Step)
    requires Inv(cacheSize, s) && Enabled(s, step)
    ensures var n := Next(cacheSize, s, step);
      forall w | 0 <= w < |n.writers| :: WriterOk(cacheSize, n, w)
  {
    hide StoreOk, FilesOk, QueueOk, QueuedOrHeld, OrderOk;
    var n := Next(cacheSize, s, step);
    forall w | 0 <= w < |n.writers| ensures WriterOk(cacheSize, n, w) {
      assert WriterOk(cacheSize, s, w);
      match step
      case Begin(x, body) =>
        if w != x && s.writers[w].Full? {
          assert s.writers[w].page != s.sh.current;
        }
      case Check(x) =>
        assert Stretch(cacheSize, s.sh.pages[s.writers[x].page], s.log);
      case _ =>
    }
  }

  lemma FilesKept(cacheSize: int, s: State, step: Step)
    requires Inv(cacheSize, s) && Enabled(s, step) && LogOk(Next(cacheSize, s, step))
    ensures FilesOk(Next(cacheSize, s, step))
  {
    hide PagesOk, StoreOk, QueueOk, QueuedOrHeld, OrderOk;
    var n := Next(cacheSize, s, step);
    forall i | 0 <= i < |n.log|
      ensures i in n.sh.store.files || (n.writers[n.owner[i]].Taken? && n.writers[n.owner[i]].e == n.log[i])
    {
      if i < |s.log| {
        assert i in s.sh.store.files || (s.writers[s.owner[i]].Taken? && s.writers[s.owner[i]].e == s.log[i]);
      }
    }
  }

  lemma QueueKept(cacheSize: int, s: State, step: Step)
    requires Inv(cacheSize, s) && Enabled(s, step)
    ensures QueueOk(Next(cacheSize, s, step))
  {
    hide PagesOk, StoreOk, FilesOk, OrderOk;
    var n := Next(cacheSize, s, step);
    if step.Put? {
      assert WriterOk(cacheSize, s, step.w);
      var e := s.writers[step.w].e;
      assert s.log[e.id] !in s.sh.queue;
      forall j | 0 <= j < |s.sh.queue| ensures s.sh.queue[j].id != e.id {
        assert s.log[s.sh.queue[j].id] == s.sh.queue[j];
      }
    } else {
      forall j | 0 <= j < |s.sh.queue| ensures n.log[s.sh.queue[j].id] == s.sh.queue[j] {
        assert s.log[s.sh.queue[j].id] == s.sh.queue[j];
      }
    }
  }

  lemma HeldKept(cacheSize: int, s: State, step: Step)
    requires Inv(cacheSize, s) && Enabled(s, step) && LogOk(Next(cacheSize, s, step))
    ensures QueuedOrHeld(Next(cacheSize, s, step))
  {
    hide PagesOk, StoreOk, FilesOk, OrderOk;
    var n := Next(cacheSize, s, step);
    forall i | 0 <= i < |n.log|
      ensures n.log[i] in n.sh.queue <==> !Holds(n.writers[n.owner[i]], n.log[i])
    {
      if i < |s.log| {
        assert s.log[i] in s.sh.queue <==> !Holds(s.writers[s.owner[i]], s.log[i]);
        HeldStep(cacheSize, s, step, i);
      } else {
        forall j | 0 <= j < |s.sh.queue| ensures s.sh.queue[j] != n.log[i] {
          assert s.sh.queue[j].id < |s.log|;
        }
      }
    }
  }

  lemma HeldStep(cacheSize: int, s: State, step: Step, i: nat)
    requires Inv(cacheSize, s) && Enabled(s, step) && i < |s.log|
    requires s.log[i] in s.sh.queue <==> !Holds(s.writers[s.owner[i]], s.log[i])
    ensures var n := Next(cacheSize, s, step);
      n.log[i] == s.log[i] && n.owner[i] == s.owner[i]
      && (n.log[i] in n.sh.queue <==> !Holds(n.writers[n.owner[i]], n.log[i]))
  {
    hide PagesOk, StoreOk, FilesOk, OrderOk, QueueOk, QueuedOrHeld;
    if step.Put? { assert WriterOk(cacheSize, s, step.w); }
  }

  lemma OrderKept(cacheSize: int, s: State, step: Step)
    requires Inv(cacheSize, s) && Enabled(s, step)
    requires LogOk(Next(cacheSize, s, step)) && QueueOk(Next(cacheSize, s, step))
    ensures OrderOk(Next(cacheSize, s, step))
  {
    if step.Put? {
      PutKeepsOrder(cacheSize, s, step.w);
    } else {
      OthersKeepOrder(cacheSize, s, step);
    }
  }

  lemma OthersKeepOrder(cacheSize: int, s: State, step: Step)
    requires Inv(cacheSize, s) && Enabled(s, step) && !step.Put?
    requires LogOk(Next(cacheSize, s, step)) && QueueOk(Next(cacheSize, s, step))
    ensures OrderOk(Next(cacheSize, s, step))
  {
    hide PagesOk, StoreOk, FilesOk, QueuedOrHeld, WriterOk;
    var n := Next(cacheSize, s, step);
    assert n.sh.queue == s.sh.queue;
    assert forall j | 0 <= j < |s.sh.queue| :: n.owner[s.sh.queue[j].id] == s.owner[s.sh.queue[j].id];
  }

  lemma PutKeepsOrder(cacheSize: int, s: State, w: nat)
    requires Inv(cacheSize, s) && Enabled(s, Put(w))
    requires LogOk(Next(cacheSize, s, Put(w))) && QueueOk(Next(cacheSize, s, Put(w)))
    ensures OrderOk(Next(cacheSize, s, Put(w)))
  {
    hide PagesOk, StoreOk, FilesOk, QueuedOrHeld;
    var n, q := Next(cacheSize, s, Put(w)), s.sh.queue;
    assert WriterOk(cacheSize, s, w);
    hide WriterOk;
    assert n.sh.queue == q + [s.writers[w].e] && n.owner == s.owner;
    forall j | 0 <= j < |q| && s.owner[q[j].id] == w ensures q[j].id < s.writers[w].e.id {
      assert n.sh.queue[j].id != n.sh.queue[|q|].id;
    }
  }

  lemma StepKeepsInv(cacheSize: int, s: State, step: Step)
    requires Inv(cacheSize, s) && Enabled(s, step)
    ensures Inv(cacheSize, Next(cacheSize, s, step))
  {
    LogKept(cacheSize, s, step);
    PagesKept(cacheSize, s, step);
    StoreKept(cacheSize, s, step);
    WritersKept(cacheSize, s, step);
    FilesKept(cacheSize, s, step);
    QueueKept(cacheSize, s, step);
    HeldKept(cacheSize, s, step);
    OrderKept(cacheSize, s, step);
    hide Next, LogOk, PagesOk, StoreOk, WriterOk, FilesOk, QueueOk, QueuedOrHeld, OrderOk;
  }

  lemma {:induction false} RunKeepsInv(cacheSize: int, s: State, steps: seq<Step>)
    requires Inv(cacheSize, s) && Possible(cacheSize, s, steps)
    ensures Inv(cacheSize, RunFrom(cacheSize, s, steps))
    decreases |steps|
  {
    hide Inv, Next, Enabled;
    if steps != [] {
      StepKeepsInv(cacheSize, s, steps[0]);
      RunKeepsInv(cacheSize, Next(cacheSize, s, steps[0]), steps[1..]);
    }
  }

  /** The invariant holds in every state that any number of writers can reach from an empty stream. */
  lemma Reachable(cacheSize: int, writers: nat, steps: seq<Step>)
    requires cacheSize > 0 && Possible(cacheSize, Initial(writers), steps)
    ensures Inv(cacheSize, RunFrom(cacheSize, Initial(writers), steps))
  {
    assert Inv(cacheSize, Initial(writers)) by {
      hide Possible;
    }
    RunKeepsInv(cacheSize, Initial(writers), steps);
  }

  // ---- What readers and subscribers may rely on ----

  /** Every stored page holds exactly the events its key names, in id order, in every reachable state. */
  lemma PagesHoldTheLog(cacheSize: int, writers: nat, steps: seq<Step>)
    requires cacheSize > 0 && Possible(cacheSize, Initial(writers), steps)
    ensures var s := RunFrom(cacheSize, Initial(writers), steps);
      forall k | k in s.sh.store.pages ::
        && k.1 == k.0 + cacheSize && 0 <= k.0 && k.1 <= |s.log| && |s.sh.store.pages[k]| == cacheSize
        && forall i | 0 <= i < cacheSize :: s.sh.store.pages[k][i] == s.log[k.0 + i] && s.log[k.0 + i].id == k.0 + i
  {
    Reachable(cacheSize, writers, steps);
    hide FilesOk, QueueOk, QueuedOrHeld, OrderOk, PagesOk, Initial, RunFrom, Possible;
  }

  /** While adds are in flight a reader may miss an event, but never sees another one in its place. */
  lemma ReadersSeeTheLog(cacheSize: int, s: State, index: int)
    requires Inv(cacheSize, s)
    ensures PagesFull(s.sh.store, cacheSize)
    ensures var e := Lookup(s.sh.store, cacheSize, index);
      e.Some? ==> 0 <= index < |s.log| && e.value == s.log[index] && e.value.id == index
  {
    hide FilesOk, QueueOk, QueuedOrHeld, OrderOk, PagesOk, WriterOk;
  }

  /** With no add in flight, the pages are invisible: a look-up gives what the event's file gives. */
  lemma QuietLookup(cacheSize: int, s: State, index: int)
    requires Inv(cacheSize, s) && Quiet(s)
    ensures PagesFull(s.sh.store, cacheSize)
    ensures index in s.sh.store.files <==> 0 <= index < |s.log|
    ensures Lookup(s.sh.store, cacheSize, index) == ReadFile(s.sh.store.files, index)
  {
    hide QueueOk, QueuedOrHeld, OrderOk, PagesOk;
    ReadersSeeTheLog(cacheSize, s, index);
    if 0 <= index < |s.log| {
      assert s.writers[s.owner[index]].Idle?;
    }
  }

  lemma {:induction false} QuietHits(cacheSize: int, s: State, indexes: seq<int>, filter: Filter)
    requires Inv(cacheSize, s) && Quiet(s) && PagesFull(s.sh.store, cacheSize)
    ensures Hits(s.sh.store, cacheSize, indexes, filter) == Hits(Store(s.sh.store.files, map[]), cacheSize, indexes, filter)
  {
    hide Inv, Quiet;
    if indexes != [] {
      QuietHits(cacheSize, s, indexes[..|indexes| - 1], filter);
      QuietLookup(cacheSize, s, indexes[|indexes| - 1]);
    }
  }

  /** When all adds have finished, every search gives what reading the event files one by one gives. */
  lemma SearchReadsTheFiles(cacheSize: int, writers: nat, steps: seq<Step>, start: int, end: int, reverse: bool,
                            filter: Filter, limit: Option<int>)
    requires cacheSize > 0 && Possible(cacheSize, Initial(writers), steps)
    requires Quiet(RunFrom(cacheSize, Initial(writers), steps))
    ensures var store := RunFrom(cacheSize, Initial(writers), steps).sh.store;
      && PagesFull(store, cacheSize)
      && SearchSpec(store, cacheSize, start, end, reverse, filter, limit)
         == SearchSpec(Store(store.files, map[]), cacheSize, start, end, reverse, filter, limit)
  {
    var s := RunFrom(cacheSize, Initial(writers), steps);
    Reachable(cacheSize, writers, steps);
    hide Inv, Quiet, Initial, RunFrom, Possible, Hits;
    QuietLookup(cacheSize, s, start);
    QuietHits(cacheSize, s, Indexes(start, end, reverse), filter);
  }

  /** The part of the log with ids in `[start, end)`. */
  function Stretched(log: seq<Event>, start: int, end: int): seq<Event> {
    var lo, hi := if start < 0 then 0 else start, if end > |log| then |log| else end;
    if lo < hi then log[lo..hi] else []
  }

  lemma {:induction false} QuietHitsAreTheLog(cacheSize: int, s: State, start: int, end: int, filter: Filter)
    requires Inv(cacheSize, s) && Quiet(s) && PagesFull(s.sh.store, cacheSize) && cacheSize > 0
    ensures Hits(s.sh.store, cacheSize, Indexes(start, end, false), filter) == Filtered(Stretched(s.log, start, end), filter)
    decreases end - start
  {
    hide Inv, Quiet, PagesFull, Hits, Lookup, Filtered, Stretched;
    if start < end {
      QuietHitsAreTheLog(cacheSize, s, start, end - 1, filter);
      HitsOneMore(cacheSize, s, start, end, filter);
      StretchedMore(s.log, start, end);
      FilteredAppend(Stretched(s.log, start, end - 1), Stretched(s.log, end - 1, end), filter);
    } else {
      NoHits(s.sh.store, cacheSize, filter);
      NothingStretched(s.log, start, end);
      NoneFiltered(filter);
    }
  }

  lemma HitsOneMore(cacheSize: int, s: State, start: int, end: int, filter: Filter)
    requires Inv(cacheSize, s) && Quiet(s) && PagesFull(s.sh.store, cacheSize) && cacheSize > 0 && start < end
    ensures Hits(s.sh.store, cacheSize, Indexes(start, end, false), filter)
         == Hits(s.sh.store, cacheSize, Indexes(start, end - 1, false), filter) + Filtered(Stretched(s.log, end - 1, end), filter)
  {
    hide Inv, Quiet, PagesFull, Hits, Lookup, Filtered, Stretched, Indexes;
    OneIndexMore(start, end);
    HitsSplit(s.sh.store, cacheSize, Indexes(start, end - 1, false), [end - 1], filter);
    OneHit(cacheSize, s, end - 1, filter);
  }

  lemma NothingStretched(log: seq<Event>, start: int, end: int)
    requires start >= end
    ensures Stretched(log, start, end) == []
  {
  }

  lemma NoneFiltered(filter: Filter)
    ensures Filtered([], filter) == []
  {
  }

  lemma StretchedMore(log: seq<Event>, start: int, end: int)
    requires start < end
    ensures Stretched(log, start, end) == Stretched(log, start, end - 1) + Stretched(log, end - 1, end)
  {
  }

  lemma OneHit(cacheSize: int, s: State, index: int, filter: Filter)
    requires Inv(cacheSize, s) && Quiet(s) && PagesFull(s.sh.store, cacheSize)
    ensures Hits(s.sh.store, cacheSize, [index], filter) == Filtered(Stretched(s.log, index, index + 1), filter)
  {
    QuietLookup(cacheSize, s, index);
    ReadersSeeTheLog(cacheSize, s, index);
    hide Inv, Quiet, Lookup, PagesFull;
    assert [index][..0] == [];
    var found := Lookup(s.sh.store, cacheSize, index);
    assert Hits(s.sh.store, cacheSize, [index], filter) == [] + Wanted(found, filter);
    if found.Some? {
      assert Stretched(s.log, index, index + 1) == [found.value] && [found.value][1..] == [];
    } else {
      assert Stretched(s.log, index, index + 1) == [];
    }
  }

  /** When all adds have finished, a forward search without limit gives exactly the wanted events of
      the log with ids in the range, in order. */
  lemma SearchGivesTheLog(cacheSize: int, writers: nat, steps: seq<Step>, start: int, end: int, filter: Filter)
    requires cacheSize > 0 && Possible(cacheSize, Initial(writers), steps)
    requires Quiet(RunFrom(cacheSize, Initial(writers), steps))
    ensures var s := RunFrom(cacheSize, Initial(writers), steps);
      && PagesFull(s.sh.store, cacheSize)
      && SearchSpec(s.sh.store, cacheSize, start, end, false, filter, None) == Filtered(Stretched(s.log, start, end), filter)
  {
    var s := RunFrom(cacheSize, Initial(writers), steps);
    Reachable(cacheSize, writers, steps);
    hide Inv, Quiet, Initial, RunFrom, Possible, Hits, Filtered;
    QuietLookup(cacheSize, s, start);
    QuietHitsAreTheLog(cacheSize, s, start, end, filter);
  }

  lemma {:induction false} DistinctCount(xs: seq<Event>, e: Event)
    requires forall j, k | 0 <= j < k < |xs| :: xs[j].id != xs[k].id
    ensures multiset(xs)[e] == if e in xs then 1 else 0
  {
    if xs != [] {
      var n := |xs| - 1;
      assert xs == xs[..n] + [xs[n]];
      DistinctCount(xs[..n], e);
    }
  }

  /** With no add in flight every event has been queued exactly once, and each writer's events in
      the order of their ids. */
  lemma QueuedExactlyOnce(cacheSize: int, writers: nat, steps: seq<Step>)
    requires cacheSize > 0 && Possible(cacheSize, Initial(writers), steps)
    requires Quiet(RunFrom(cacheSize, Initial(writers), steps))
    ensures var s := RunFrom(cacheSize, Initial(writers), steps);
      && multiset(s.sh.queue) == multiset(s.log)
      && LogOk(s) && QueueOk(s) && OrderOk(s)
  {
    var s := RunFrom(cacheSize, Initial(writers), steps);
    Reachable(cacheSize, writers, steps);
    hide FilesOk, PagesOk, StoreOk, WriterOk, Initial, RunFrom, Possible;
    assert LogOk(s) && QueueOk(s) && QueuedOrHeld(s);
    hide LogOk, QueueOk, QueuedOrHeld, OrderOk;
    forall e: Event ensures multiset(s.sh.queue)[e] == multiset(s.log)[e] {
      QueuedOnce(s, e);
    }
  }

  lemma QueuedOnce(s: State, e: Event)
    requires LogOk(s) && QueueOk(s) && QueuedOrHeld(s) && Quiet(s)
    ensures multiset(s.sh.queue)[e] == multiset(s.log)[e] == if e in s.log then 1 else 0
  {
    DistinctCount(s.sh.queue, e);
    DistinctCount(s.log, e);
    if e in s.log {
      var i :| 0 <= i < |s.log| && s.log[i] == e;
      assert s.writers[s.owner[i]].Idle?;
    }
  }

  /** Ids are handed out consecutively and never again, over any run and its clean restarts. */
  lemma {:induction false} IdsNeverReused(cacheSize: int, s: State, steps: seq<Step>)
    requires Inv(cacheSize, s) && Possible(cacheSize, s, steps)
    ensures var t := RunFrom(cacheSize, s, steps);
      s.log <= t.log && t.sh.curId == |t.log| && forall i | 0 <= i < |t.log| :: t.log[i].id == i
    decreases |steps|
  {
    if steps == [] {
      hide PagesOk, StoreOk, WriterOk, FilesOk, QueueOk, QueuedOrHeld, OrderOk;
    } else {
      StepKeepsInv(cacheSize, s, steps[0]);
      assert s.log <= Next(cacheSize, s, steps[0]).log;
      hide Inv, Next, Enabled;
      IdsNeverReused(cacheSize, Next(cacheSize, s, steps[0]), steps[1..]);
    }
  }

  /** Reopening at any moment continues with the next id exactly when the file of the last event is there. */
  lemma RestartContinues(cacheSize: int, s: State, nextId: int)
    requires Inv(cacheSize, s) && IsNextId(s.sh.store.files.Keys, nextId)
    ensures nextId == s.sh.curId <==> s.sh.curId == 0 || s.sh.curId - 1 in s.sh.store.files
  {
    hide PagesOk, WriterOk, FilesOk, QueueOk, QueuedOrHeld, OrderOk;
  }

  /** So a restart that does not wait for adds in flight can give an id a second time: here a page
      already holds event 1 when id 1 is given again. */
  lemma UncleanRestartReusesAnId() returns (steps: seq<Step>)
    ensures Possible(2, Initial(2), steps)
    ensures var s := RunFrom(2, Initial(2), steps);
      |s.log| == 2 && (0, 2) in s.sh.store.pages && s.sh.store.pages[(0, 2)] == s.log
      && IsNextId(s.sh.store.files.Keys, 1)
  {
    var s0 := Initial(2);
    var s1 := Next(2, s0, Begin(0, "a"));
    var s2 := Next(2, s1, Begin(1, "b"));
    var s3 := Next(2, s2, File(0));
    var s4 := Next(2, s3, Check(0));
    var s5 := Next(2, s4, Cache(0));
    assert s5.sh.store.files.Keys == {0};
    steps := [Begin(0, "a"), Begin(1, "b"), File(0), Check(0), Cache(0)];
    var t1, t2, t3, t4 := steps[1..], steps[2..], steps[3..], steps[4..];
    assert t1[1..] == t2 && t2[1..] == t3 && t3[1..] == t4 && t4[1..] == [];
    hide Next, Enabled;
    assert Possible(2, s5, []) && RunFrom(2, s5, []) == s5;
    assert Possible(2, s4, t4) && RunFrom(2, s4, t4) == s5;
    assert Possible(2, s3, t3) && RunFrom(2, s3, t3) == s5;
    assert Possible(2, s2, t2) && RunFrom(2, s2, t2) == s5;
    assert Possible(2, s1, t1) && RunFrom(2, s1, t1) == s5;
  }

  /** The five pieces taken by one writer without interference are `add_event`. */
  lemma AloneIsARun(cacheSize: int, s: State, w: nat, body: string)
    requires Inv(cacheSize, s) && w < |s.writers| && s.writers[w].Idle?
    ensures var s1 := Next(cacheSize, s, Begin(w, body));
      Enabled(s1, File(w)) && var s2 := Next(cacheSize, s1, File(w));
      Enabled(s2, Check(w)) && var s3 := Next(cacheSize, s2, Check(w));
      (s3.writers[w].Full? ==> Enabled(s3, Cache(w))) &&
      var s4 := if s3.writers[w].Full? then Next(cacheSize, s3, Cache(w)) else s3;
      Enabled(s4, Put(w)) && Next(cacheSize, s4, Put(w)).sh == AddAlone(cacheSize, s.sh, body)
  {
    hide StoreOk, WriterOk, FilesOk, QueueOk, QueuedOrHeld, OrderOk, Stretch;
  }
}
