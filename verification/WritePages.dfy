/** The cache is not only right but complete: a write page that has been filled is stored. */
module WritePages {
  import opened PagedEvents
  import opened EventStream

  predicate Carries(w: Writer, page: nat) {
    (w.Taken? || w.Filed? || w.Full?) && w.page == page
  }

  /** Some writer has not yet got past storing this page. */
  predicate StillCarried(s: State, page: nat) {
    exists w | 0 <= w < |s.writers| :: Carries(s.writers[w], page)
  }

  predicate Kept(cacheSize: int, s: State, page: seq<Event>) {
    page != [] && (page[0].id, page[0].id + cacheSize) in s.sh.store.pages
  }

  /** A filled page is stored, or a writer that will store it is on its way. */
  predicate FullOk(cacheSize: int, s: State) {
    forall p: nat | p < |s.sh.pages| && |s.sh.pages[p]| == cacheSize ::
      Kept(cacheSize, s, s.sh.pages[p]) || StillCarried(s, p)
  }

  /** The first id of page `p` when the first page starts at `base`. */
  function FirstId(cacheSize: int, base: int, p: nat): int {
    if p == 0 then base else FirstId(cacheSize, base, p - 1) + cacheSize
  }

  /** The pages of one opening follow one another: all but the current one are full. */
  predicate Row(cacheSize: int, base: int, s: State) {
    && s.sh.current == |s.sh.pages| - 1
    && (forall p: nat | p < s.sh.current ::
          s.sh.pages[p] != [] && |s.sh.pages[p]| == cacheSize && s.sh.pages[p][0].id == FirstId(cacheSize, base, p))
    && FirstId(cacheSize, base, s.sh.current) + |s.sh.pages[s.sh.current]| == |s.log|
  }

  lemma CarriedElsewhere(s: State, n: State, x: nat, page: nat)
    requires |n.writers| == |s.writers| && x < |s.writers|
    requires forall w | 0 <= w < |s.writers| && w != x :: n.writers[w] == s.writers[w]
    requires StillCarried(s, page) && (Carries(s.writers[x], page) ==> Carries(n.writers[x], page))
    ensures StillCarried(n, page)
  {
    var w :| 0 <= w < |s.writers| && Carries(s.writers[w], page);
    assert Carries(n.writers[w], page);
  }

  lemma BeginFull(cacheSize: int, s: State, x: nat, body: string)
    requires Inv(cacheSize, s) && FullOk(cacheSize, s) && Enabled(s, Begin(x, body))
    ensures FullOk(cacheSize, Next(cacheSize, s, Begin(x, body)))
  {
    hide StoreOk, FilesOk, QueueOk, QueuedOrHeld, OrderOk, WriterOk, Stretch, StillCarried;
    var n := Next(cacheSize, s, Begin(x, body));
    forall p: nat | p < |n.sh.pages| && |n.sh.pages[p]| == cacheSize
      ensures Kept(cacheSize, n, n.sh.pages[p]) || StillCarried(n, p)
    {
      if p == s.sh.current {
        NowCarried(n, x, p);
      } else {
        assert p < |s.sh.pages| && n.sh.pages[p] == s.sh.pages[p];
        if !Kept(cacheSize, s, s.sh.pages[p]) { CarriedElsewhere(s, n, x, p); }
      }
    }
  }

  lemma NowCarried(n: State, x: nat, p: nat)
    requires x < |n.writers| && Carries(n.writers[x], p)
    ensures StillCarried(n, p)
  {
  }

  lemma OtherFull(cacheSize: int, s: State, step: Step)
    requires Inv(cacheSize, s) && FullOk(cacheSize, s) && Enabled(s, step) && !step.Begin? && !step.Reopen?
    ensures FullOk(cacheSize, Next(cacheSize, s, step))
  {
    hide StoreOk, FilesOk, QueueOk, QueuedOrHeld, OrderOk, Stretch, StillCarried;
    var n, x := Next(cacheSize, s, step), step.w;
    assert n.sh.pages == s.sh.pages;
    forall p: nat | p < |n.sh.pages| && |n.sh.pages[p]| == cacheSize
      ensures Kept(cacheSize, n, n.sh.pages[p]) || StillCarried(n, p)
    {
      if !Kept(cacheSize, s, s.sh.pages[p]) && !(step.Cache? && s.writers[x].page == p) {
        CarriedElsewhere(s, n, x, p);
      }
    }
  }

  lemma ReopenFull(cacheSize: int, s: State, nextId: int)
    requires cacheSize > 0 && Enabled(s, Reopen(nextId))
    ensures FullOk(cacheSize, Next(cacheSize, s, Reopen(nextId)))
  {
  }

  lemma StepKeepsFull(cacheSize: int, s: State, step: Step)
    requires Inv(cacheSize, s) && FullOk(cacheSize, s) && Enabled(s, step)
    ensures FullOk(cacheSize, Next(cacheSize, s, step))
  {
    assert cacheSize > 0;
    hide Inv, FullOk, Next, Enabled;
    if step.Begin? {
      BeginFull(cacheSize, s, step.w, step.body);
    } else if step.Reopen? {
      ReopenFull(cacheSize, s, step.nextId);
    } else {
      OtherFull(cacheSize, s, step);
    }
  }

  lemma {:induction false} RunKeepsFull(cacheSize: int, s: State, steps: seq<Step>)
    requires Inv(cacheSize, s) && FullOk(cacheSize, s) && Possible(cacheSize, s, steps)
    ensures FullOk(cacheSize, RunFrom(cacheSize, s, steps))
    decreases |steps|
  {
    hide Inv, FullOk, Next, Enabled;
    if steps != [] {
      StepKeepsInv(cacheSize, s, steps[0]);
      StepKeepsFull(cacheSize, s, steps[0]);
      RunKeepsFull(cacheSize, Next(cacheSize, s, steps[0]), steps[1..]);
    }
  }

  /** When all adds have finished, every page filled since the stream was opened is stored. */
  lemma FilledPagesAreStored(cacheSize: int, writers: nat, steps: seq<Step>, p: nat)
    requires cacheSize > 0 && Possible(cacheSize, Initial(writers), steps)
    requires Quiet(RunFrom(cacheSize, Initial(writers), steps))
    requires var s := RunFrom(cacheSize, Initial(writers), steps); p < |s.sh.pages| && |s.sh.pages[p]| == cacheSize
    ensures var s := RunFrom(cacheSize, Initial(writers), steps); Kept(cacheSize, s, s.sh.pages[p])
  {
    Reachable(cacheSize, writers, []);
    assert FullOk(cacheSize, Initial(writers));
    RunKeepsFull(cacheSize, Initial(writers), steps);
    hide RunFrom, Possible, Initial, Inv;
  }

  // ---- A stream that was opened once ----

  lemma StepKeepsRow(cacheSize: int, base: int, s: State, step: Step)
    requires Inv(cacheSize, s) && Row(cacheSize, base, s) && Enabled(s, step) && !step.Reopen?
    ensures Row(cacheSize, base, Next(cacheSize, s, step))
  {
    hide StoreOk, FilesOk, QueueOk, QueuedOrHeld, OrderOk, WriterOk;
    var n := Next(cacheSize, s, step);
    if step.Begin? {
      var page := s.sh.pages[s.sh.current];
      assert Stretch(cacheSize, page, s.log);
      assert FirstId(cacheSize, base, s.sh.current + 1) == FirstId(cacheSize, base, s.sh.current) + cacheSize;
      assert (page + [Event(s.sh.curId, step.body)])[0].id == FirstId(cacheSize, base, s.sh.current);
    }
  }

  lemma {:induction false} RunKeepsRow(cacheSize: int, base: int, s: State, steps: seq<Step>)
    requires Inv(cacheSize, s) && Row(cacheSize, base, s) && Possible(cacheSize, s, steps)
    requires forall i | 0 <= i < |steps| :: !steps[i].Reopen?
    ensures Row(cacheSize, base, RunFrom(cacheSize, s, steps))
    decreases |steps|
  {
    if steps != [] {
      StepKeepsInv(cacheSize, s, steps[0]);
      StepKeepsRow(cacheSize, base, s, steps[0]);
      hide Inv, Row, Next, Enabled;
      RunKeepsRow(cacheSize, base, Next(cacheSize, s, steps[0]), steps[1..]);
    }
  }

  lemma {:induction false} FirstIdGrows(cacheSize: int, base: int, p: nat, q: nat)
    requires cacheSize > 0 && p <= q
    ensures FirstId(cacheSize, base, p) <= FirstId(cacheSize, base, q)
  {
    if p < q { FirstIdGrows(cacheSize, base, p, q - 1); }
  }

  lemma RunIsRow(cacheSize: int, writers: nat, steps: seq<Step>)
    requires cacheSize > 0 && Possible(cacheSize, Initial(writers), steps)
    requires forall i | 0 <= i < |steps| :: !steps[i].Reopen?
    ensures Row(cacheSize, 0, RunFrom(cacheSize, Initial(writers), steps))
  {
    Reachable(cacheSize, writers, []);
    assert Row(cacheSize, 0, Initial(writers));
    hide Inv, Row, Initial;
    RunKeepsRow(cacheSize, 0, Initial(writers), steps);
  }

  /** The cache holds the aligned page `p` of the log. */
  predicate HoldsPage(cacheSize: int, s: State, p: nat) {
    var key := (FirstId(cacheSize, 0, p), FirstId(cacheSize, 0, p + 1));
    && key in s.sh.store.pages && 0 <= key.0 <= key.1 <= |s.log|
    && s.sh.store.pages[key] == s.log[key.0..key.1]
  }

  /** In a stream opened once, when all adds have finished, the cache holds every aligned page that
      has been filled, and with its events. */
  lemma AlignedPagesAreStored(cacheSize: int, writers: nat, steps: seq<Step>, p: nat)
    requires cacheSize > 0 && Possible(cacheSize, Initial(writers), steps)
    requires Quiet(RunFrom(cacheSize, Initial(writers), steps)) && forall i | 0 <= i < |steps| :: !steps[i].Reopen?
    requires FirstId(cacheSize, 0, p + 1) <= |RunFrom(cacheSize, Initial(writers), steps).log|
    ensures HoldsPage(cacheSize, RunFrom(cacheSize, Initial(writers), steps), p)
  {
    hide RunFrom, Possible, Initial, Inv, Quiet, Row, FirstId;
    var s := RunFrom(cacheSize, Initial(writers), steps);
    Reachable(cacheSize, writers, steps);
    RunIsRow(cacheSize, writers, steps);
    CurrentIsLater(cacheSize, s, p);
    PageOfRow(cacheSize, s, p);
    FilledPagesAreStored(cacheSize, writers, steps, p);
    KeptHoldsTheLog(cacheSize, s, s.sh.pages[p]);
  }

  lemma PageOfRow(cacheSize: int, s: State, p: nat)
    requires cacheSize > 0 && Row(cacheSize, 0, s) && p < s.sh.current
    ensures p < |s.sh.pages| && |s.sh.pages[p]| == cacheSize && s.sh.pages[p][0].id == FirstId(cacheSize, 0, p)
    ensures FirstId(cacheSize, 0, p + 1) == FirstId(cacheSize, 0, p) + cacheSize
  {
  }

  lemma KeptHoldsTheLog(cacheSize: int, s: State, page: seq<Event>)
    requires Inv(cacheSize, s) && Kept(cacheSize, s, page)
    ensures var start := page[0].id;
      && 0 <= start && start + cacheSize <= |s.log|
      && s.sh.store.pages[(start, start + cacheSize)] == s.log[start..start + cacheSize]
  {
    hide LogOk, PagesOk, FilesOk, QueueOk, QueuedOrHeld, OrderOk, WriterOk;
    assert (page[0].id, page[0].id + cacheSize) in s.sh.store.pages;
  }

  lemma CurrentIsLater(cacheSize: int, s: State, p: nat)
    requires Inv(cacheSize, s) && Row(cacheSize, 0, s) && FirstId(cacheSize, 0, p + 1) <= |s.log|
    ensures p < s.sh.current
  {
    if s.sh.current <= p { FirstIdGrows(cacheSize, 0, s.sh.current, p); }
  }
}
