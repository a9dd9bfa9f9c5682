/** A file store that mirrors its writes and deletes to a remote store in batches: the batch as an
    ordered dictionary, its replay on the remote side, and the buffer with its size count and timer. */
module BatchedMirror {
  import opened Wrappers

  datatype Content = Text(chars: string) | Bytes(bytes: seq<bv8>)

  datatype Op = Write(content: Content) | Delete

  type Files = map<string, Content>
  type Batch = seq<(string, Op)>

  const DEFAULT_LIMIT := 1048576

  // ---- Sizes ----

  /** Length of a character in UTF-8. */
  function CharSize(c: char): nat {
    if c < '\U{80}' then 1 else if c < '\U{800}' then 2 else if c < '\U{10000}' then 3 else 4
  }

  function TextSize(s: string): nat {
    if s == "" then 0 else CharSize(s[0]) + TextSize(s[1..])
  }

  function Size(op: Op): nat {
    match op
    case Write(Text(s)) => TextSize(s)
    case Write(Bytes(b)) => |b|
    case Delete => 0
  }

  /** The bytes of a character in UTF-8 (section 3 of RFC 3629). */
  function Encoded(c: char): seq<int> {
    var n := c as int;
    var q := n / 0x40;
    var r := q / 0x40;
    if n < 0x80 then [n]
    else if n < 0x800 then [0xC0 + q, 0x80 + n % 0x40]
    else if n < 0x10000 then [0xE0 + r, 0x80 + q % 0x40, 0x80 + n % 0x40]
    else [0xF0 + r / 0x40, 0x80 + r % 0x40, 0x80 + q % 0x40, 0x80 + n % 0x40]
  }

  /** Six more bits from a continuation byte. */
  function More(high: int, b: int): int {
    high * 0x40 + (b - 0x80)
  }

  /** The size counted for a character is the number of bytes of its code: the first byte tells how many
      there are, the others are continuation bytes, and together they give the character back. */
  lemma CharSizeExactly(c: char)
    ensures var e := Encoded(c);
      && CharSize(c) == |e| && 1 <= |e| <= 4
      && (|e| == 1 ==> 0 <= e[0] < 0x80 && e[0] == c as int)
      && (|e| == 2 ==> 0xC0 <= e[0] < 0xE0 && More(e[0] - 0xC0, e[1]) == c as int)
      && (|e| == 3 ==> 0xE0 <= e[0] < 0xF0 && More(More(e[0] - 0xE0, e[1]), e[2]) == c as int)
      && (|e| == 4 ==> 0xF0 <= e[0] < 0xF8 && More(More(More(e[0] - 0xF0, e[1]), e[2]), e[3]) == c as int)
      && forall i | 1 <= i < |e| :: 0x80 <= e[i] < 0xC0
  {
  }

  function EncodedText(s: string): seq<int> {
    if s == "" then [] else Encoded(s[0]) + EncodedText(s[1..])
  }

  /** A text counts with the bytes of its code, bytes with their number, a delete with nothing. */
  lemma {:induction false} SizeExactly(s: string, b: seq<bv8>)
    ensures Size(Write(Text(s))) == |EncodedText(s)| && Size(Write(Bytes(b))) == |b| && Size(Op.Delete) == 0
  {
    if s != "" {
      CharSizeExactly(s[0]);
      hide CharSize, Encoded;
      SizeExactly(s[1..], b);
    }
  }

  function TotalSize(b: Batch): nat {
    if b == [] then 0 else TotalSize(b[..|b| - 1]) + Size(b[|b| - 1].1)
  }

  // ---- Batches ----

  predicate Touches(b: Batch, path: string) {
    exists i | 0 <= i < |b| :: b[i].0 == path
  }

  predicate Distinct(b: Batch) {
    forall i, j | 0 <= i < j < |b| :: b[i].0 != b[j].0
  }

  /** What the batch last says about a path. */
  function LastOp(b: Batch, path: string): (r: Option<Op>)
    ensures r.Some? <==> Touches(b, path)
  {
    if b == [] then None
    else
      var n := |b| - 1;
      if b[n].0 == path then
        assert Touches(b, path);
        Some(b[n].1)
      else
        var r := LastOp(b[..n], path);
        assert r.Some? ==> exists i :: 0 <= i < n && b[..n][i].0 == path && b[i].0 == path;
        r
  }

  /** `batch[path] = op`: a path already present keeps its place. */
  function Upsert(b: Batch, path: string, op: Op): Batch {
    if b == [] then [(path, op)]
    else if b[0].0 == path then [(path, op)] + b[1..]
    else [b[0]] + Upsert(b[1..], path, op)
  }

  function Apply(m: Files, path: string, op: Op): Files {
    match op
    case Write(c) => m[path := c]
    case Delete => m - {path}
  }

  /** The remote side carries out a batch, item by item. */
  function Replay(m: Files, b: Batch): Files {
    if b == [] then m else Apply(Replay(m, b[..|b| - 1]), b[|b| - 1].0, b[|b| - 1].1)
  }

  function ReplayAll(m: Files, bs: seq<Batch>): Files {
    if bs == [] then m else Replay(ReplayAll(m, bs[..|bs| - 1]), bs[|bs| - 1])
  }

  function At(m: Files, path: string): Option<Content> {
    if path in m then Some(m[path]) else None
  }

  function Effect(op: Op): Option<Content> {
    if op.Write? then Some(op.content) else None
  }

  lemma SameFiles(m: Files, n: Files)
    requires forall p: string :: At(m, p) == At(n, p)
    ensures m == n
  {
    forall p ensures p in m <==> p in n { assert At(m, p) == At(n, p); }
    forall p | p in m ensures m[p] == n[p] { assert At(m, p) == At(n, p); }
  }

  lemma ApplyAt(m: Files, path: string, op: Op, p: string)
    ensures At(Apply(m, path, op), p) == if p == path then Effect(op) else At(m, p)
  {
  }

  /** After a batch a path holds what the batch last says about it, and otherwise what it held. */
  lemma {:induction false} ReplayAt(m: Files, b: Batch, p: string)
    ensures At(Replay(m, b), p) == if LastOp(b, p).Some? then Effect(LastOp(b, p).value) else At(m, p)
  {
    if b != [] {
      ReplayAt(m, b[..|b| - 1], p);
      ApplyAt(Replay(m, b[..|b| - 1]), b[|b| - 1].0, b[|b| - 1].1, p);
    }
  }

  lemma {:induction false} LastOpFront(x: (string, Op), b: Batch, p: string)
    ensures LastOp([x] + b, p) == if LastOp(b, p).Some? then LastOp(b, p) else if x.0 == p then Some(x.1) else None
  {
    if b == [] {
      assert [x] + b == [x] && [x][..0] == [];
      assert LastOp([], p) == None;
    } else {
      assert ([x] + b)[..|b|] == [x] + b[..|b| - 1];
      LastOpFront(x, b[..|b| - 1], p);
    }
  }

  lemma {:induction false} UpsertLast(b: Batch, path: string, op: Op, p: string)
    requires Distinct(b)
    ensures LastOp(Upsert(b, path, op), p) == if p == path then Some(op) else LastOp(b, p)
  {
    if b == [] {
      LastOpFront((path, op), [], p);
      assert [(path, op)] + [] == [(path, op)];
    } else {
      assert b == [b[0]] + b[1..];
      LastOpFront(b[0], b[1..], p);
      if b[0].0 == path {
        LastOpFront((path, op), b[1..], p);
        assert !Touches(b[1..], path);
      } else {
        UpsertLast(b[1..], path, op, p);
        LastOpFront(b[0], Upsert(b[1..], path, op), p);
      }
    }
  }

  /** Coalescing is invisible: replaying the updated batch is replaying the old one and then the update. */
  lemma CoalescingIsSound(m: Files, b: Batch, path: string, op: Op)
    requires Distinct(b)
    ensures Replay(m, Upsert(b, path, op)) == Apply(Replay(m, b), path, op)
  {
    var l, r := Replay(m, Upsert(b, path, op)), Apply(Replay(m, b), path, op);
    forall p: string ensures At(l, p) == At(r, p) {
      ReplayAt(m, Upsert(b, path, op), p);
      ReplayAt(m, b, p);
      UpsertLast(b, path, op, p);
      ApplyAt(Replay(m, b), path, op, p);
    }
    SameFiles(l, r);
  }

  lemma {:induction false} UpsertDistinct(b: Batch, path: string, op: Op)
    requires Distinct(b)
    ensures Distinct(Upsert(b, path, op)) && Upsert(b, path, op) != []
    ensures forall p: string :: Touches(Upsert(b, path, op), p) <==> p == path || Touches(b, p)
  {
    forall p: string ensures Touches(Upsert(b, path, op), p) <==> p == path || Touches(b, p) {
      UpsertLast(b, path, op, p);
    }
    if b != [] && b[0].0 != path {
      UpsertDistinct(b[1..], path, op);
      assert forall i | 0 <= i < |b[1..]| :: b[1..][i].0 != b[0].0;
      assert !Touches(b[1..], b[0].0);
    }
  }

  lemma {:induction false} TotalFront(x: (string, Op), b: Batch)
    ensures TotalSize([x] + b) == Size(x.1) + TotalSize(b)
  {
    if b == [] {
      assert [x] + b == [x] && [x][..0] == [];
    } else {
      assert ([x] + b)[..|b|] == [x] + b[..|b| - 1];
      TotalFront(x, b[..|b| - 1]);
    }
  }

  function SizeAt(b: Batch, path: string): nat {
    if LastOp(b, path).Some? then Size(LastOp(b, path).value) else 0
  }

  /** The size of the batch changes by the difference of what the path held and holds. */
  lemma {:induction false} UpsertSize(b: Batch, path: string, op: Op)
    requires Distinct(b)
    ensures TotalSize(Upsert(b, path, op)) == TotalSize(b) - SizeAt(b, path) + Size(op)
  {
    hide Size;
    if b == [] {
      TotalFront((path, op), []);
      assert [(path, op)] + [] == [(path, op)];
    } else {
      assert b == [b[0]] + b[1..];
      TotalFront(b[0], b[1..]);
      LastOpFront(b[0], b[1..], path);
      if b[0].0 == path {
        TotalFront((path, op), b[1..]);
        assert !Touches(b[1..], path);
      } else {
        UpsertSize(b[1..], path, op);
        TotalFront(b[0], Upsert(b[1..], path, op));
      }
    }
  }

  // ---- Batches on their way to the mirror ----

  /** Sending a batch again at once, as a retry does, changes nothing. */
  lemma RetryChangesNothing(m: Files, b: Batch)
    ensures Replay(Replay(m, b), b) == Replay(m, b)
  {
    forall p: string ensures At(Replay(Replay(m, b), b), p) == At(Replay(m, b), p) {
      ReplayAt(m, b, p);
      ReplayAt(Replay(m, b), b, p);
    }
    SameFiles(Replay(Replay(m, b), b), Replay(m, b));
  }

  predicate Agree(a: Batch, b: Batch) {
    forall i, j | 0 <= i < |a| && 0 <= j < |b| && a[i].0 == b[j].0 ::
      Effect(LastOp(a, a[i].0).value) == Effect(LastOp(b, a[i].0).value)
  }

  /** Two batches may arrive in either order exactly when they leave every path they share alike. */
  lemma OrderMattersExactly(a: Batch, b: Batch)
    ensures (forall m: Files :: Replay(Replay(m, a), b) == Replay(Replay(m, b), a)) <==> Agree(a, b)
  {
    if Agree(a, b) {
      forall m: Files ensures Replay(Replay(m, a), b) == Replay(Replay(m, b), a) {
        InEitherOrder(m, a, b);
      }
    } else {
      var i, j :| 0 <= i < |a| && 0 <= j < |b| && a[i].0 == b[j].0
        && Effect(LastOp(a, a[i].0).value) != Effect(LastOp(b, a[i].0).value);
      BothWays(map[], a, b, a[i].0);
    }
  }

  lemma BothWays(m: Files, a: Batch, b: Batch, p: string)
    ensures At(Replay(Replay(m, a), b), p)
         == if LastOp(b, p).Some? then Effect(LastOp(b, p).value)
            else if LastOp(a, p).Some? then Effect(LastOp(a, p).value) else At(m, p)
    ensures At(Replay(Replay(m, b), a), p)
         == if LastOp(a, p).Some? then Effect(LastOp(a, p).value)
            else if LastOp(b, p).Some? then Effect(LastOp(b, p).value) else At(m, p)
  {
    ReplayAt(m, a, p);
    ReplayAt(Replay(m, a), b, p);
    ReplayAt(m, b, p);
    ReplayAt(Replay(m, b), a, p);
  }

  lemma InEitherOrder(m: Files, a: Batch, b: Batch)
    requires Agree(a, b)
    ensures Replay(Replay(m, a), b) == Replay(Replay(m, b), a)
  {
    forall p: string ensures At(Replay(Replay(m, a), b), p) == At(Replay(Replay(m, b), a), p) {
      BothWays(m, a, b, p);
    }
    SameFiles(Replay(Replay(m, a), b), Replay(Replay(m, b), a));
  }

  // ---- The buffer ----

  /** `local` is the store itself.  Timers are numbered in the order they were started: `live` ones
      are counting down, `due` ones have run out and wait for the lock, where cancelling no longer
      stops them.  `detached` are the batches handed over for sending. */
  datatype Shared = Shared(local: Files, batch: Batch, batchSize: int, timer: Option<nat>, limit: int,
                           live: set<nat>, due: set<nat>, started: nat, detached: seq<Batch>)

  /** `_enqueue_batch_from_lock` */
  function Detached(sh: Shared): Shared {
    sh.(batch := [], batchSize := 0, detached := sh.detached + [sh.batch],
        live := if sh.timer.Some? then sh.live - {sh.timer.value} else sh.live, timer := None)
  }

  /** `_queue_update` */
  function Queued(sh: Shared, path: string, op: Op): Shared {
    var sh' := sh.(batch := Upsert(sh.batch, path, op), batchSize := sh.batchSize - SizeAt(sh.batch, path) + Size(op));
    if sh'.batchSize >= sh.limit then Detached(sh')
    else
      sh'.(live := (if sh.timer.Some? then sh.live - {sh.timer.value} else sh.live) + {sh.started},
           timer := Some(sh.started), started := sh.started + 1)
  }

  function Changed(sh: Shared, path: string, op: Op): Shared {
    sh.(local := Apply(sh.local, path, op))
  }

  function Expired(sh: Shared, t: nat): Shared {
    sh.(live := sh.live - {t}, due := sh.due + {t})
  }

  function Fired(sh: Shared, t: nat): Shared {
    Detached(sh.(due := sh.due - {t}))
  }

  /** Holds whenever the lock is free: the size count is right and below the limit, and a timer is
      armed exactly when something is waiting, it is the only one counting down, and it has not
      been lost. */
  predicate Accounted(sh: Shared) {
    && Distinct(sh.batch)
    && sh.batchSize == TotalSize(sh.batch)
    && (sh.limit > 0 || sh.batch != [] ==> sh.batchSize < sh.limit)
    && (sh.timer.Some? <==> sh.batch != [])
    && (sh.timer.Some? ==> sh.timer.value in sh.live + sh.due)
    && (forall t | t in sh.live :: sh.timer == Some(t))
    && (forall t | t in sh.due :: t < sh.started && t !in sh.live)
    && (sh.timer.Some? ==> sh.timer.value < sh.started)
  }

  /** What the mirror holds once everything handed over and everything waiting has been carried out. */
  function Mirror(start: Files, sh: Shared): Files {
    Replay(ReplayAll(start, sh.detached), sh.batch)
  }

  lemma DetachedKeeps(sh: Shared, start: Files)
    requires Distinct(sh.batch) && (forall t | t in sh.live :: sh.timer == Some(t))
    requires forall t | t in sh.due :: t < sh.started && t !in sh.live
    ensures Accounted(Detached(sh))
    ensures Mirror(start, Detached(sh)) == Mirror(start, sh) == ReplayAll(start, Detached(sh).detached)
  {
    assert (sh.detached + [sh.batch])[..|sh.detached|] == sh.detached;
  }

  lemma QueuedKeeps(sh: Shared, path: string, op: Op, start: Files)
    requires Accounted(sh)
    ensures Accounted(Queued(sh, path, op))
    ensures Mirror(start, Queued(sh, path, op)) == Apply(Mirror(start, sh), path, op)
  {
    hide Size, TotalSize, LastOp, Upsert, Replay, ReplayAll, Apply, Distinct;
    var sh' := sh.(batch := Upsert(sh.batch, path, op), batchSize := sh.batchSize - SizeAt(sh.batch, path) + Size(op));
    UpsertDistinct(sh.batch, path, op);
    UpsertSize(sh.batch, path, op);
    CoalescingIsSound(ReplayAll(start, sh.detached), sh.batch, path, op);
    if sh'.batchSize >= sh.limit {
      DetachedKeeps(sh', start);
    }
  }

  /** An update is put on the batch, and the batch is handed over when it has reached the limit; until then
      the update starts the timer anew, and the timer that was counting down does not fire. */
  lemma QueuedExactly(sh: Shared, path: string, op: Op)
    requires Accounted(sh)
    ensures var n, b := Queued(sh, path, op), Upsert(sh.batch, path, op);
      && n.local == sh.local && n.due == sh.due && n.limit == sh.limit
      && (TotalSize(b) >= sh.limit ==>
            n.batch == [] && n.detached == sh.detached + [b] && n.timer == None && n.live == {} && n.started == sh.started)
      && (TotalSize(b) < sh.limit ==>
            n.batch == b && n.batchSize == TotalSize(b) && n.detached == sh.detached
            && n.timer == Some(sh.started) && n.live == {sh.started} && n.started == sh.started + 1)
  {
    UpsertSize(sh.batch, path, op);
    hide Size, TotalSize, Upsert, Distinct, SizeAt;
  }

  /** A timer that has run out is due until it gets the lock; then it hands over all that waits, and neither
      it nor the timer in force fires again. */
  lemma FiredExactly(sh: Shared, t: nat)
    requires Accounted(sh)
    ensures t in sh.live ==> Expired(sh, t) == sh.(live := {}, due := sh.due + {t})
    ensures t in sh.due ==>
      var n := Fired(sh, t);
      && n.detached == sh.detached + [sh.batch] && n.batch == [] && n.batchSize == 0 && n.timer == None
      && n.live == {} && n.due == sh.due - {t} && n.local == sh.local
  {
    hide Distinct, TotalSize;
  }

  /** A path that has an update already keeps its place in the batch with the new one, any other comes last. */
  lemma {:induction false} UpsertExactly(b: Batch, path: string, op: Op)
    requires Distinct(b)
    ensures !Touches(b, path) ==> Upsert(b, path, op) == b + [(path, op)]
    ensures forall i | 0 <= i < |b| && b[i].0 == path :: Upsert(b, path, op) == b[i := (path, op)]
  {
    if b != [] {
      assert b == [b[0]] + b[1..];
      if b[0].0 == path {
        assert [(path, op)] + b[1..] == b[0 := (path, op)];
      } else {
        UpsertExactly(b[1..], path, op);
        TouchesRest(b, path);
        forall i | 0 <= i < |b| && b[i].0 == path ensures Upsert(b, path, op) == b[i := (path, op)] {
          assert b[1..][i - 1].0 == path;
          assert [b[0]] + b[1..][i - 1 := (path, op)] == b[i := (path, op)];
        }
      }
    }
  }

  lemma TouchesRest(b: Batch, path: string)
    requires b != [] && b[0].0 != path
    ensures Touches(b, path) <==> Touches(b[1..], path)
  {
    assert forall i | 0 < i < |b| :: b[i] == b[1..][i - 1];
  }

  // ---- One store used by one thread ----

  class BatchedWebHookFileStore {
    var local: Files
    var batch: Batch
    var batchSize: int
    var timer: Option<nat>
    var limit: int
    var live: set<nat>
    var due: set<nat>
    var started: nat
    var detached: seq<Batch>

    ghost function View(): Shared
      reads this
    {
      Shared(local, batch, batchSize, timer, limit, live, due, started, detached)
    }

    constructor (local: Files, batchSizeLimitBytes: Option<int>)
      ensures Accounted(View()) && View().local == local && Mirror(local, View()) == local
      ensures limit == if batchSizeLimitBytes.None? || batchSizeLimitBytes.value == 0 then 1048576
                       else batchSizeLimitBytes.value
    {
      this.local := local;
      batch, batchSize, timer, live, due, started, detached := [], 0, None, {}, {}, 0, [];
      limit := if batchSizeLimitBytes.Some? && batchSizeLimitBytes.value != 0 then batchSizeLimitBytes.value else DEFAULT_LIMIT;
    }

    method Write(path: string, contents: Content)
      requires Accounted(View())
      modifies this
      ensures View() == Queued(Changed(old(View()), path, Op.Write(contents)), path, Op.Write(contents))
      ensures Accounted(View())
      ensures forall start: Files :: Mirror(start, View()) == Apply(Mirror(start, old(View())), path, Op.Write(contents))
    {
      local := local[path := contents];
      QueueUpdate(path, Op.Write(contents));
    }

    method Delete(path: string)
      requires Accounted(View())
      modifies this
      ensures View() == Queued(Changed(old(View()), path, Op.Delete), path, Op.Delete)
      ensures Accounted(View())
      ensures forall start: Files :: Mirror(start, View()) == Apply(Mirror(start, old(View())), path, Op.Delete)
    {
      local := local - {path};
      QueueUpdate(path, Op.Delete);
    }

    method QueueUpdate(path: string, op: Op)
      requires Accounted(View())
      modifies this
      ensures View() == Queued(old(View()), path, op)
      ensures Accounted(View())
      ensures forall start: Files :: Mirror(start, View()) == Apply(Mirror(start, old(View())), path, op)
    {
      hide Size, TotalSize, Upsert, Mirror, Accounted, Apply;
      ghost var before := View();
      forall start: Files
        ensures Accounted(Queued(before, path, op))
          && Mirror(start, Queued(before, path, op)) == Apply(Mirror(start, before), path, op)
      {
        QueuedKeeps(before, path, op, start);
      }
      QueuedKeeps(before, path, op, map[]);
      var prev := LastOp(batch, path);
      if prev.Some? {
        batchSize := batchSize - Size(prev.value);
      }
      batchSize := batchSize + Size(op);
      batch := Upsert(batch, path, op);
      if batchSize >= limit {
        EnqueueBatch();
        return;
      }
      if timer.Some? {
        live := live - {timer.value};
        timer := None;
      }
      live, timer, started := live + {started}, Some(started), started + 1;
    }

    /** `_enqueue_batch_from_lock` */
    method EnqueueBatch()
      modifies this
      ensures View() == Detached(old(View()))
    {
      var batchToSend := batch;
      batch, batchSize := [], 0;
      detached := detached + [batchToSend];
      if timer.Some? {
        live := live - {timer.value};
        timer := None;
      }
    }

    /** A timer that has run out gets the lock: `_enqueue_batch_from_timer`. */
    method EnqueueFromTimer(t: nat)
      requires Accounted(View()) && t in due
      modifies this
      ensures View() == Fired(old(View()), t)
      ensures Accounted(View()) && batch == []
      ensures forall start: Files :: Mirror(start, View()) == Mirror(start, old(View()))
    {
      ghost var before := View();
      forall start: Files
        ensures Accounted(Fired(before, t)) && Mirror(start, Fired(before, t)) == Mirror(start, before)
      {
        DetachedKeeps(before.(due := before.due - {t}), start);
      }
      due := due - {t};
      EnqueueBatch();
      DetachedKeeps(before.(due := before.due - {t}), map[]);
    }

    /** After `flush` the batches handed over say all there is to say. */
    method Flush()
      requires Accounted(View())
      modifies this
      ensures View() == Detached(old(View()))
      ensures Accounted(View()) && batch == []
      ensures forall start: Files :: ReplayAll(start, detached) == Mirror(start, View()) == Mirror(start, old(View()))
    {
      ghost var before := View();
      forall start: Files
        ensures Mirror(start, Detached(before)) == Mirror(start, before) == ReplayAll(start, Detached(before).detached)
      {
        DetachedKeeps(before, start);
      }
      DetachedKeeps(before, map[]);
      EnqueueBatch();
    }
  }
}
