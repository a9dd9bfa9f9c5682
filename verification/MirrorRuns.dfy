/** Several threads write and delete through one batching store, while its timers run out late and
    someone flushes.  An operation changes the store first and queues its update under the lock later. */
module MirrorRuns {
  import opened Wrappers
  import opened BatchedMirror

  /** `inflight` are the operations that have changed the store and not yet been queued.  `done` and
      `queued` record, path by path, the operation that changed the store last and the one queued last. */
  datatype State = State(sh: Shared, inflight: map<nat, (string, Op)>, done: map<string, Op>, queued: map<string, Op>)

  datatype Step =
    | Change(thread: nat, path: string, op: Op)
    | Queue(thread: nat)
    | Expire(timer: nat)
    | Fire(timer: nat)
    | Flush

  predicate Enabled(s: State, step: Step) {
    match step
    case Change(w, _, _) => w !in s.inflight
    case Queue(w) => w in s.inflight
    case Expire(t) => t in s.sh.live
    case Fire(t) => t in s.sh.due
    case Flush => true
  }

  function Next(s: State, step: Step): State
    requires Enabled(s, step)
  {
    match step
    case Change(w, path, op) =>
      s.(sh := Changed(s.sh, path, op), inflight := s.inflight[w := (path, op)], done := s.done[path := op])
    case Queue(w) =>
      var (path, op) := s.inflight[w];
      s.(sh := Queued(s.sh, path, op), inflight := s.inflight - {w}, queued := s.queued[path := op])
    case Expire(t) => s.(sh := Expired(s.sh, t))
    case Fire(t) => s.(sh := Fired(s.sh, t))
    case Flush => s.(sh := Detached(s.sh))
  }

  function Initial(start: Files, limit: int): State {
    State(Shared(start, [], 0, None, limit, {}, {}, 0, []), map[], map[], map[])
  }

  predicate Possible(s: State, steps: seq<Step>)
    decreases |steps|
  {
    steps == [] || (Enabled(s, steps[0]) && Possible(Next(s, steps[0]), steps[1..]))
  }

  function RunFrom(s: State, steps: seq<Step>): State
    requires Possible(s, steps)
    decreases |steps|
  {
    if steps == [] then s else RunFrom(Next(s, steps[0]), steps[1..])
  }

  /** What a path holds after the recorded operation on it. */
  function Left(ops: map<string, Op>, start: Files, path: string): Option<Content> {
    if path in ops then Effect(ops[path]) else At(start, path)
  }

  ghost predicate Inv(start: Files, s: State) {
    && Accounted(s.sh)
    && (forall p: string :: At(s.sh.local, p) == Left(s.done, start, p))
    && (forall p: string :: At(Mirror(start, s.sh), p) == Left(s.queued, start, p))
  }

  lemma StepKeepsInv(start: Files, s: State, step: Step)
    requires Inv(start, s) && Enabled(s, step)
    ensures Inv(start, Next(s, step))
  {
    hide Mirror, Queued, Detached, TotalSize, Distinct, Apply, Effect;
    match step
    case Change(w, path, op) =>
      forall p: string ensures At(Apply(s.sh.local, path, op), p) == Left(s.done[path := op], start, p) {
        ApplyAt(s.sh.local, path, op, p);
      }
      SameMirror(start, s.sh, Changed(s.sh, path, op));
    case Queue(w) =>
      var (path, op) := s.inflight[w];
      QueuedKeeps(s.sh, path, op, start);
      forall p: string ensures At(Mirror(start, Queued(s.sh, path, op)), p) == Left(s.queued[path := op], start, p) {
        ApplyAt(Mirror(start, s.sh), path, op, p);
      }
      LocalKept(s.sh, path, op);
    case Expire(t) => SameMirror(start, s.sh, Expired(s.sh, t));
    case Fire(t) =>
      DetachedKeeps(s.sh.(due := s.sh.due - {t}), start);
      SameMirror(start, s.sh, s.sh.(due := s.sh.due - {t}));
      DetachedLocal(s.sh.(due := s.sh.due - {t}));
    case Flush =>
      DetachedKeeps(s.sh, start);
      DetachedLocal(s.sh);
  }

  lemma SameMirror(start: Files, a: Shared, b: Shared)
    requires a.batch == b.batch && a.detached == b.detached
    ensures Mirror(start, a) == Mirror(start, b)
  {
  }

  lemma LocalKept(sh: Shared, path: string, op: Op)
    ensures Queued(sh, path, op).local == sh.local
  {
  }

  lemma DetachedLocal(sh: Shared)
    ensures Detached(sh).local == sh.local
  {
  }

  lemma {:induction false} RunKeepsInv(start: Files, s: State, steps: seq<Step>)
    requires Inv(start, s) && Possible(s, steps)
    ensures Inv(start, RunFrom(s, steps))
    decreases |steps|
  {
    hide Inv, Next, Enabled;
    if steps != [] {
      StepKeepsInv(start, s, steps[0]);
      RunKeepsInv(start, Next(s, steps[0]), steps[1..]);
    }
  }

  lemma InitialInv(start: Files, limit: int)
    ensures Inv(start, Initial(start, limit))
  {
  }

  /** In every reachable state with the lock free the size count is the size of what is waiting and
      below the limit, and a timer is armed exactly when something is waiting, however late timers fire. */
  lemma AlwaysAccounted(start: Files, limit: int, steps: seq<Step>)
    requires Possible(Initial(start, limit), steps)
    ensures var sh := RunFrom(Initial(start, limit), steps).sh;
      && sh.batchSize == TotalSize(sh.batch) && (limit > 0 ==> sh.batchSize < limit) && (limit <= 0 ==> sh.batch == [])
      && (sh.batch != [] <==> sh.timer.Some?)
      && (sh.timer.Some? ==> sh.timer.value in sh.live + sh.due)
      && (forall t | t in sh.live :: sh.timer == Some(t))
  {
    InitialInv(start, limit);
    RunKeepsInv(start, Initial(start, limit), steps);
    LimitKept(Initial(start, limit), steps);
    var sh := RunFrom(Initial(start, limit), steps).sh;
    assert Accounted(sh);
    hide Inv, RunFrom, Possible;
  }

  lemma {:induction false} LimitKept(s: State, steps: seq<Step>)
    requires Possible(s, steps)
    ensures RunFrom(s, steps).sh.limit == s.sh.limit
    decreases |steps|
  {
    if steps != [] {
      LimitKept(Next(s, steps[0]), steps[1..]);
    }
  }

  /** The mirror ends up with the local files exactly when, path by path, the update queued last has
      the effect of the operation that changed the store last. */
  lemma MirrorExact(start: Files, limit: int, steps: seq<Step>)
    requires Possible(Initial(start, limit), steps)
    ensures var s := RunFrom(Initial(start, limit), steps);
      Mirror(start, s.sh) == s.sh.local <==> forall p: string :: Left(s.queued, start, p) == Left(s.done, start, p)
  {
    var s := RunFrom(Initial(start, limit), steps);
    InitialInv(start, limit);
    RunKeepsInv(start, Initial(start, limit), steps);
    hide Mirror, At, RunFrom, Possible, Accounted;
    if forall p: string :: Left(s.queued, start, p) == Left(s.done, start, p) {
      SameFiles(Mirror(start, s.sh), s.sh.local);
    } else {
      var p: string :| Left(s.queued, start, p) != Left(s.done, start, p);
      assert At(Mirror(start, s.sh), p) != At(s.sh.local, p);
    }
  }

  // ---- When no two operations on one path overlap ----

  predicate PathFree(s: State, path: string) {
    forall w | w in s.inflight :: s.inflight[w].0 != path
  }

  /** No operation starts on a path while another one on it is in flight. */
  predicate NoOverlap(s: State, steps: seq<Step>)
    requires Possible(s, steps)
    decreases |steps|
  {
    steps == [] ||
    ((steps[0].Change? ==> PathFree(s, steps[0].path)) && NoOverlap(Next(s, steps[0]), steps[1..]))
  }

  /** The operation in flight on a path is the one that changed it last; a path with none is up to date. */
  predicate InStep(s: State) {
    && (forall v, w | v in s.inflight && w in s.inflight && v != w :: s.inflight[v].0 != s.inflight[w].0)
    && (forall w | w in s.inflight :: s.inflight[w].0 in s.done && s.done[s.inflight[w].0] == s.inflight[w].1)
    && UpToDate(s)
  }

  predicate UpToDate(s: State) {
    && (forall p | p in s.done :: PathFree(s, p) ==> p in s.queued && s.queued[p] == s.done[p])
    && (forall p | p in s.queued :: p in s.done)
  }

  lemma StepKeepsInStep(s: State, step: Step)
    requires InStep(s) && Enabled(s, step) && (step.Change? ==> PathFree(s, step.path))
    ensures InStep(Next(s, step))
  {
    hide Queued, Changed, Detached, Fired, Expired, PathFree, InStep;
    match step
    case Change(w, path, op) => ChangeInStep(s, w, path, op);
    case Queue(w) => QueueInStep(s, w);
    case _ => SameInStep(s, Next(s, step));
  }

  lemma SameInStep(s: State, n: State)
    requires InStep(s) && n.inflight == s.inflight && n.done == s.done && n.queued == s.queued
    ensures InStep(n)
  {
  }

  lemma ChangeInStep(s: State, w: nat, path: string, op: Op)
    requires InStep(s) && w !in s.inflight && PathFree(s, path)
    ensures InStep(s.(sh := Changed(s.sh, path, op), inflight := s.inflight[w := (path, op)], done := s.done[path := op]))
  {
    hide Changed, UpToDate;
    ChangeUpToDate(s, w, path, op);
  }

  lemma ChangeUpToDate(s: State, w: nat, path: string, op: Op)
    requires UpToDate(s) && w !in s.inflight
    ensures UpToDate(s.(sh := Changed(s.sh, path, op), inflight := s.inflight[w := (path, op)], done := s.done[path := op]))
  {
    hide Changed;
    var n := s.(sh := Changed(s.sh, path, op), inflight := s.inflight[w := (path, op)], done := s.done[path := op]);
    forall p | p in n.done && PathFree(n, p) ensures p in n.queued && n.queued[p] == n.done[p] {
      assert n.inflight[w].0 == path && w in n.inflight;
      forall v | v in s.inflight ensures s.inflight[v].0 != p { assert v in n.inflight && n.inflight[v] == s.inflight[v]; }
      assert PathFree(s, p) && p in s.done;
    }
  }

  lemma QueueInStep(s: State, w: nat)
    requires InStep(s) && w in s.inflight
    ensures var (path, op) := s.inflight[w];
      InStep(s.(sh := Queued(s.sh, path, op), inflight := s.inflight - {w}, queued := s.queued[path := op]))
  {
    hide Queued;
    var (path, op) := s.inflight[w];
    var n := s.(sh := Queued(s.sh, path, op), inflight := s.inflight - {w}, queued := s.queued[path := op]);
    forall p | p in n.done && PathFree(n, p) ensures p in n.queued && n.queued[p] == n.done[p] {
      if p != path {
        forall v | v in s.inflight ensures s.inflight[v].0 != p {
          if v != w { assert v in n.inflight; }
        }
        assert PathFree(s, p) && p in s.done;
      }
    }
  }

  lemma {:induction false} RunKeepsInStep(s: State, steps: seq<Step>)
    requires InStep(s) && Possible(s, steps) && NoOverlap(s, steps)
    ensures InStep(RunFrom(s, steps))
    decreases |steps|
  {
    hide InStep, Next, Enabled, PathFree;
    if steps != [] {
      StepKeepsInStep(s, steps[0]);
      RunKeepsInStep(Next(s, steps[0]), steps[1..]);
    }
  }

  /** When nothing is in flight and operations on one path never overlapped, the batches handed over
      followed by the one that is waiting turn the starting files into the local files. */
  lemma MirrorFollows(start: Files, limit: int, steps: seq<Step>)
    requires Possible(Initial(start, limit), steps) && NoOverlap(Initial(start, limit), steps)
    requires RunFrom(Initial(start, limit), steps).inflight == map[]
    ensures var sh := RunFrom(Initial(start, limit), steps).sh;
      Replay(ReplayAll(start, sh.detached), sh.batch) == sh.local
  {
    var s := RunFrom(Initial(start, limit), steps);
    RunKeepsInStep(Initial(start, limit), steps);
    MirrorExact(start, limit, steps);
    hide Possible, RunFrom, NoOverlap, Initial;
    forall p: string ensures Left(s.queued, start, p) == Left(s.done, start, p) {
      if p in s.done { assert PathFree(s, p); }
    }
  }

  /** After a flush with nothing in flight the batches handed over suffice. */
  lemma FlushedMirrorFollows(start: Files, limit: int, steps: seq<Step>)
    requires Possible(Initial(start, limit), steps) && NoOverlap(Initial(start, limit), steps)
    requires RunFrom(Initial(start, limit), steps).inflight == map[]
    ensures var s := RunFrom(Initial(start, limit), steps);
      Enabled(s, Flush) && ReplayAll(start, Next(s, Flush).sh.detached) == s.sh.local
  {
    var s := RunFrom(Initial(start, limit), steps);
    MirrorFollows(start, limit, steps);
    hide Possible, RunFrom, NoOverlap, Initial;
    assert (s.sh.detached + [s.sh.batch])[..|s.sh.detached|] == s.sh.detached;
  }

  /** Two writers on one path can leave the mirror with the contents the store no longer has. */
  lemma OverlapDiverges() returns (steps: seq<Step>)
    ensures var s0 := Initial(map[], DEFAULT_LIMIT);
      && Possible(s0, steps) && RunFrom(s0, steps).inflight == map[]
      && RunFrom(s0, steps).sh.local != Mirror(map[], RunFrom(s0, steps).sh)
  {
    var a, b := Write(Text("a")), Write(Text("b"));
    var s0 := Initial(map[], DEFAULT_LIMIT);
    var s1 := Next(s0, Change(0, "f", a));
    var s2 := Next(s1, Change(1, "f", b));
    var s3 := Next(s2, Queue(1));
    var s4 := Next(s3, Queue(0));
    steps := [Change(0, "f", a), Change(1, "f", b), Queue(1), Queue(0)];
    var t1, t2, t3 := steps[1..], steps[2..], steps[3..];
    assert t1[1..] == t2 && t2[1..] == t3 && t3[1..] == [];
    assert s4.done["f"] == b && s4.queued["f"] == a && s4.inflight == map[];
    hide Next, Enabled, Mirror;
    assert Possible(s4, []) && RunFrom(s4, []) == s4;
    assert Possible(s3, t3) && RunFrom(s3, t3) == s4;
    assert Possible(s2, t2) && RunFrom(s2, t2) == s4;
    assert Possible(s1, t1) && RunFrom(s1, t1) == s4;
    MirrorExact(map[], DEFAULT_LIMIT, steps);
    assert Left(s4.queued, map[], "f") != Left(s4.done, map[], "f");
  }
}
