/** Reading a remote conversation page by page: the server's page endpoint over the paged store, and
    the client that follows it. */
module NestedEvents {
  import opened Wrappers
  import opened PagedEvents
  import EventStream

  const SERVER_MAX := 100
  const SERVER_DEFAULT := 20

  datatype ClientError = MalformedReply

  /** A conversation as the server reads it; `nextId` is where its ids end. */
  datatype Server = Server(store: Store, cacheSize: int, nextId: int)

  /** The server can be read, and finds each event under its own id. */
  ghost predicate Sound(sv: Server) {
    sv.cacheSize > 0 && PagesFull(sv.store, sv.cacheSize) && OwnIds(sv)
  }

  ghost predicate OwnIds(sv: Server)
    requires sv.cacheSize > 0 && PagesFull(sv.store, sv.cacheSize)
  {
    forall i | i < sv.nextId :: Lookup(sv.store, sv.cacheSize, i).Some? ==> Lookup(sv.store, sv.cacheSize, i).value.id == i
  }

  function Any(): Filter {
    (e: Event) => true
  }

  /** The events with ids in `[start, end)`, in ascending or descending order. */
  function Present(sv: Server, start: int, end: int, reverse: bool): seq<Event>
    requires Sound(sv)
  {
    Hits(sv.store, sv.cacheSize, Indexes(start, end, reverse), Any())
  }

  /** `GET /events`: a page and whether more events match; `None` is the refusal of a bad limit. */
  function ServePage(sv: Server, start: int, endId: Option<int>, reverse: bool,
                     limit: int): (r: Option<(seq<Event>, bool)>)
    requires Sound(sv)
  {
    if limit < 0 || limit > SERVER_MAX then None
    else
      var end := if endId.Some? then endId.value + 1 else sv.nextId;
      var events := SearchSpec(sv.store, sv.cacheSize, start, end, reverse, Any(), Some(limit + 1));
      Some((if |events| > limit then events[..limit] else events, |events| > limit))
  }

  lemma PageOf(sv: Server, start: int, endId: Option<int>, reverse: bool, limit: int)
    requires Sound(sv) && 0 <= limit <= 100
    ensures var r := Present(sv, start, if endId.Some? then endId.value + 1 else sv.nextId, reverse);
      ServePage(sv, start, endId, reverse, limit) == Some((if |r| > limit then r[..limit] else r, |r| > limit))
  {
    hide Hits, Indexes, PagesFull, OwnIds;
    var r := Present(sv, start, if endId.Some? then endId.value + 1 else sv.nextId, reverse);
    if |r| > limit { assert r[..limit + 1][..limit] == r[..limit]; }
  }

  // ---- Present is sorted and can be cut anywhere ----

  lemma HitsOne(sv: Server, i: int)
    requires Sound(sv)
    ensures Hits(sv.store, sv.cacheSize, [i], Any()) == Wanted(Lookup(sv.store, sv.cacheSize, i), Any())
  {
    hide Lookup, PagesFull, OwnIds, Any;
    assert [i][..0] == [];
    assert Hits(sv.store, sv.cacheSize, [], Any()) == [];
    assert [] + Wanted(Lookup(sv.store, sv.cacheSize, i), Any()) == Wanted(Lookup(sv.store, sv.cacheSize, i), Any());
  }

  lemma PresentSplit(sv: Server, a: int, m: int, b: int)
    requires Sound(sv) && a <= m <= b
    ensures Present(sv, a, b, false) == Present(sv, a, m, false) + Present(sv, m, b, false)
    ensures Present(sv, a, b, true) == Present(sv, m, b, true) + Present(sv, a, m, true)
  {
    hide Hits, PagesFull, OwnIds;
    assert Indexes(a, b, false) == Indexes(a, m, false) + Indexes(m, b, false);
    assert Indexes(a, b, true) == Indexes(m, b, true) + Indexes(a, m, true);
    HitsSplit(sv.store, sv.cacheSize, Indexes(a, m, false), Indexes(m, b, false), Any());
    HitsSplit(sv.store, sv.cacheSize, Indexes(m, b, true), Indexes(a, m, true), Any());
  }

  predicate Sorted(xs: seq<Event>, reverse: bool) {
    forall i, j | 0 <= i < j < |xs| :: if reverse then xs[i].id > xs[j].id else xs[i].id < xs[j].id
  }

  predicate Within(xs: seq<Event>, a: int, b: int) {
    forall i | 0 <= i < |xs| :: a <= xs[i].id < b
  }

  lemma AppendSorted(xs: seq<Event>, last: seq<Event>, a: int, m: int, reverse: bool)
    requires a <= m && Sorted(xs, reverse) && Within(xs, a, m) && |last| <= 1 && Within(last, m, m + 1)
    ensures var r := if reverse then last + xs else xs + last; Sorted(r, reverse) && Within(r, a, m + 1)
  {
  }

  lemma LastPresent(sv: Server, i: int, reverse: bool)
    requires Sound(sv) && i < sv.nextId
    ensures var last := Present(sv, i, i + 1, reverse); |last| <= 1 && Within(last, i, i + 1)
  {
    hide Lookup, PagesFull, Hits;
    assert Indexes(i, i + 1, reverse) == [i];
    HitsOne(sv, i);
  }

  lemma NonePresent(sv: Server, a: int, b: int, reverse: bool)
    requires Sound(sv) && a >= b
    ensures Present(sv, a, b, reverse) == []
  {
    hide PagesFull, OwnIds;
  }

  lemma {:induction false} PresentSorted(sv: Server, a: int, b: int, reverse: bool)
    requires Sound(sv) && b <= sv.nextId
    ensures Sorted(Present(sv, a, b, reverse), reverse) && Within(Present(sv, a, b, reverse), a, b)
    decreases b - a
  {
    if a >= b {
      NonePresent(sv, a, b, reverse);
    } else {
      PresentSorted(sv, a, b - 1, reverse);
      OneMoreSorted(sv, a, b - 1, reverse);
    }
  }

  lemma OneMoreSorted(sv: Server, a: int, b: int, reverse: bool)
    requires Sound(sv) && a <= b < sv.nextId
    requires Sorted(Present(sv, a, b, reverse), reverse) && Within(Present(sv, a, b, reverse), a, b)
    ensures Sorted(Present(sv, a, b + 1, reverse), reverse) && Within(Present(sv, a, b + 1, reverse), a, b + 1)
  {
    hide Present, Sorted, Within, Sound;
    LastPresent(sv, b, reverse);
    AppendSorted(Present(sv, a, b, reverse), Present(sv, b, b + 1, reverse), a, b, reverse);
    PresentSplit(sv, a, b, b + 1);
  }

  /** What is left of a stretch after its first `n` events. */
  lemma RestOfPresent(sv: Server, a: int, b: int, reverse: bool, n: nat)
    requires Sound(sv) && b <= sv.nextId && 0 < n <= |Present(sv, a, b, reverse)|
    ensures var r := Present(sv, a, b, reverse);
      && a <= r[n - 1].id < b
      && r[n..] == if reverse then Present(sv, a, r[n - 1].id, true) else Present(sv, r[n - 1].id + 1, b, false)
  {
    hide Present, PagesFull, OwnIds;
    var r := Present(sv, a, b, reverse);
    PresentSorted(sv, a, b, reverse);
    assert a <= r[n - 1].id < b;
    var m := if reverse then r[n - 1].id else r[n - 1].id + 1;
    PresentSplit(sv, a, m, b);
    PresentSorted(sv, a, m, reverse);
    PresentSorted(sv, m, b, reverse);
    if reverse {
      CutPoint(r, Present(sv, m, b, true), Present(sv, a, m, true), n, true);
    } else {
      CutPoint(r, Present(sv, a, m, false), Present(sv, m, b, false), n, false);
    }
  }

  lemma CutPoint(r: seq<Event>, first: seq<Event>, rest: seq<Event>, n: nat, reverse: bool)
    requires r == first + rest && 0 < n <= |r| && Sorted(r, reverse)
    requires forall i | 0 <= i < |first| :: if reverse then first[i].id >= r[n - 1].id else first[i].id <= r[n - 1].id
    requires forall i | 0 <= i < |rest| :: if reverse then rest[i].id < r[n - 1].id else rest[i].id > r[n - 1].id
    ensures r[n..] == rest
  {
    if n > |first| {
      InSecond(first, rest, n - 1);
    } else if n < |first| {
      InFirst(first, rest, n);
    }
  }

  lemma InFirst(first: seq<Event>, rest: seq<Event>, i: nat)
    requires i < |first|
    ensures (first + rest)[i] == first[i]
  {
  }

  lemma InSecond(first: seq<Event>, rest: seq<Event>, i: nat)
    requires |first| <= i < |first| + |rest|
    ensures (first + rest)[i] == rest[i - |first|]
  {
  }

  // ---- What the client is to return ----

  /** The events up to and including the one with id `endId`; all of them if there is none. */
  function UpTo(xs: seq<Event>, endId: Option<int>): seq<Event> {
    if xs == [] then []
    else if endId == Some(xs[0].id) then [xs[0]]
    else [xs[0]] + UpTo(xs[1..], endId)
  }

  function Take(xs: seq<Event>, limit: Option<int>): seq<Event> {
    if limit.Some? && 0 <= limit.value < |xs| then xs[..limit.value] else xs
  }

  function ClientSpec(sv: Server, startId: int, endId: Option<int>, reverse: bool, filter: Filter,
                      limit: Option<int>): seq<Event>
    requires Sound(sv)
  {
    Want(Present(sv, startId, sv.nextId, reverse), endId, filter, limit)
  }

  function Want(xs: seq<Event>, endId: Option<int>, filter: Filter, limit: Option<int>): seq<Event> {
    Take(Filtered(UpTo(xs, endId), filter), limit)
  }

  predicate Avoids(xs: seq<Event>, endId: Option<int>) {
    forall i | 0 <= i < |xs| :: endId != Some(xs[i].id)
  }

  lemma {:induction false} UpToAppend(a: seq<Event>, b: seq<Event>, endId: Option<int>)
    requires Avoids(a, endId)
    ensures UpTo(a + b, endId) == a + UpTo(b, endId)
  {
    if a == [] {
      assert a + b == b;
    } else {
      assert endId != Some(a[0].id);
      assert (a + b)[1..] == a[1..] + b;
      UpToAppend(a[1..], b, endId);
    }
  }

  /** Events passed over without reaching the end event or the limit leave the rest to be searched. */
  lemma Passed(xs: seq<Event>, rest: seq<Event>, endId: Option<int>, filter: Filter, limit: Option<int>)
    requires Avoids(xs, endId) && (limit.Some? ==> |Filtered(xs, filter)| <= limit.value)
    ensures Want(xs + rest, endId, filter, limit)
         == Filtered(xs, filter) + Want(rest, endId, filter, Less(limit, |Filtered(xs, filter)|))
  {
    hide Avoids, UpTo, Filtered;
    UpToAppend(xs, rest, endId);
    FilteredAppend(xs, UpTo(rest, endId), filter);
    TakeAppend(Filtered(xs, filter), Filtered(UpTo(rest, endId), filter), limit);
  }

  lemma TakeAppend(a: seq<Event>, b: seq<Event>, limit: Option<int>)
    requires limit.Some? ==> |a| <= limit.value
    ensures Take(a + b, limit) == a + Take(b, Less(limit, |a|))
  {
  }

  function Less(limit: Option<int>, n: nat): Option<int> {
    if limit.Some? then Some(limit.value - n) else None
  }

  lemma FilteredOne(e: Event, filter: Filter)
    ensures Filtered([e], filter) == if filter(e) then [e] else []
  {
    assert [e][1..] == [];
  }

  // ---- Reading one page ----

  /** What a page yields, what is left of the limit, and whether the reading ends there: at the end
      event, or with the last event wanted. */
  function ReadOf(events: seq<Event>, endId: Option<int>, filter: Filter, left: Option<int>): (seq<Event>, Option<int>, bool) {
    if events == [] then ([], left, false)
    else
      var e, one := events[0], if filter(events[0]) then [events[0]] else [];
      if endId == Some(e.id) then (one, left, true)
      else if filter(e) && left.Some? && left.value <= 1 then (one, Less(left, 1), true)
      else YieldFirst(one, ReadOf(events[1..], endId, filter, Less(left, |one|)))
  }

  function YieldFirst(xs: seq<Event>, r: (seq<Event>, Option<int>, bool)): (seq<Event>, Option<int>, bool) {
    (xs + r.0, r.1, r.2)
  }

  lemma YieldNothing(r: (seq<Event>, Option<int>, bool))
    ensures YieldFirst([], r) == r
  {
    assert [] + r.0 == r.0;
  }

  /** One event of a page, and the others after it. */
  lemma ReadFirst(events: seq<Event>, endId: Option<int>, filter: Filter, left: Option<int>)
    requires events != []
    ensures var e, rest := events[0], events[1..];
      ReadOf(events, endId, filter, left) ==
        if endId == Some(e.id) then (if filter(e) then [e] else [], left, true)
        else if !filter(e) then ReadOf(rest, endId, filter, left)
        else if left.Some? && left.value <= 1 then ([e], Less(left, 1), true)
        else YieldFirst([e], ReadOf(rest, endId, filter, Less(left, 1)))
  {
    YieldNothing(ReadOf(events[1..], endId, filter, left));
    assert Less(left, 0) == left;
  }

  lemma YieldTwice(xs: seq<Event>, ys: seq<Event>, r: (seq<Event>, Option<int>, bool))
    ensures YieldFirst(xs, YieldFirst(ys, r)) == YieldFirst(xs + ys, r)
  {
    assert xs + (ys + r.0) == (xs + ys) + r.0;
  }

  function MinId(events: seq<Event>): Option<int> {
    if events == [] then None
    else
      var m, id := MinId(events[..|events| - 1]), events[|events| - 1].id;
      if m.None? || id < m.value then Some(id) else m
  }

  function NextStart(events: seq<Event>, start: int): int {
    if events == [] then start
    else
      var m, id := NextStart(events[..|events| - 1], start), events[|events| - 1].id;
      if m < id + 1 then id + 1 else m
  }

  method ReadPage(events: seq<Event>, startCursor: int, endId: Option<int>, reverse: bool, filter: Filter, limit: Option<int>)
    returns (yielded: seq<Event>, left: Option<int>, finished: bool, pageMinId: Option<int>, forwardNextStart: int)
    ensures (yielded, left, finished) == ReadOf(events, endId, filter, limit)
    ensures !finished ==> pageMinId == (if reverse then MinId(events) else None)
    ensures !finished ==> forwardNextStart == if reverse then startCursor else NextStart(events, startCursor)
  {
    yielded, left, finished, pageMinId, forwardNextStart := [], limit, false, None, startCursor;
    assert events[0..] == events;
    YieldNothing(ReadOf(events, endId, filter, limit));
    ReadNothing(endId, filter);
    hide ReadOf;
    for i := 0 to |events|
      invariant ReadOf(events, endId, filter, limit) == YieldFirst(yielded, ReadOf(events[i..], endId, filter, left))
      invariant pageMinId == if reverse then MinId(events[..i]) else None
      invariant forwardNextStart == if reverse then startCursor else NextStart(events[..i], startCursor)
    {
      var event := events[i];
      assert events[i..][0] == event && events[i..][1..] == events[i + 1..];
      assert events[..i + 1][..i] == events[..i];
      if reverse {
        if pageMinId.None? || event.id < pageMinId.value {
          pageMinId := Some(event.id);
        }
      } else if forwardNextStart < event.id + 1 {
        forwardNextStart := event.id + 1;
      }
      ReadFirst(events[i..], endId, filter, left);
      if endId == Some(event.id) {
        assert yielded + [] == yielded;
        if filter(event) {
          yielded := yielded + [event];
        }
        finished := true;
        return;
      }
      if filter(event) {
        YieldTwice(yielded, [event], ReadOf(events[i + 1..], endId, filter, Less(left, 1)));
        yielded := yielded + [event];
        if left.Some? {
          left := Some(left.value - 1);
          if left.value <= 0 {
            finished := true;
            return;
          }
        }
      }
    }
    assert events[..|events|] == events && events[|events|..] == [] && yielded + [] == yielded;
  }

  lemma ReadNothing(endId: Option<int>, filter: Filter)
    ensures forall left: Option<int> :: ReadOf([], endId, filter, left) == ([], left, false)
  {
  }

  lemma FilteredNone(filter: Filter)
    ensures Filtered([], filter) == []
  {
  }

  /** One more event that is not the end event. */
  lemma WantFirst(e: Event, rest: seq<Event>, endId: Option<int>, filter: Filter, left: Option<int>)
    requires endId != Some(e.id) && (left.Some? ==> left.value > 0)
    ensures var one := if filter(e) then [e] else [];
      Want([e] + rest, endId, filter, left) == one + Want(rest, endId, filter, Less(left, |one|))
  {
    FilteredOne(e, filter);
    hide Filtered, Want, UpTo;
    Passed([e], rest, endId, filter, left);
  }

  lemma WantEnd(e: Event, rest: seq<Event>, endId: Option<int>, filter: Filter, left: Option<int>)
    requires endId == Some(e.id) && (left.Some? ==> left.value > 0)
    ensures Want([e] + rest, endId, filter, left) == if filter(e) then [e] else []
  {
    FilteredOne(e, filter);
  }

  lemma WantNone(xs: seq<Event>, endId: Option<int>, filter: Filter)
    ensures Want(xs, endId, filter, Some(0)) == []
  {
  }

  lemma WantEmpty(endId: Option<int>, filter: Filter, limit: Option<int>)
    ensures Want([], endId, filter, limit) == []
  {
  }

  /** Reading a page yields the wanted events of it, and if it does not end the reading, what is
      wanted beyond it is still to come. */
  lemma {:induction false} PageYields(events: seq<Event>, rest: seq<Event>, endId: Option<int>, filter: Filter, left: Option<int>)
    requires events != [] && left.Some? ==> left.value > 0
    ensures var (ys, after, finished) := ReadOf(events, endId, filter, left);
      && Want(events + rest, endId, filter, left) == (if finished then ys else ys + Want(rest, endId, filter, after))
      && (after.Some? <==> left.Some?)
      && (!finished && after.Some? ==> if events == [] then after == left else after.value > 0)
  {
    hide Want, ReadOf;
    if events == [] {
      ReadNothing(endId, filter);
      assert events + rest == rest && [] + Want(rest, endId, filter, left) == Want(rest, endId, filter, left);
    } else {
      var e, more := events[0], events[1..] + rest;
      assert events + rest == [e] + more;
      ReadFirst(events, endId, filter, left);
      if endId == Some(e.id) {
        WantEnd(e, more, endId, filter, left);
      } else {
        WantFirst(e, more, endId, filter, left);
        if !filter(e) {
          assert [] + Want(more, endId, filter, left) == Want(more, endId, filter, left) && Less(left, 0) == left;
          PageYields(events[1..], rest, endId, filter, left);
        } else if left.Some? && left.value <= 1 {
          WantNone(more, endId, filter);
          assert [e] + [] == [e];
        } else {
          PageYields(events[1..], rest, endId, filter, Less(left, 1));
          var (ys, after, _) := ReadOf(events[1..], endId, filter, Less(left, 1));
          assert [e] + (ys + Want(rest, endId, filter, after)) == ([e] + ys) + Want(rest, endId, filter, after);
        }
      }
    }
  }

  lemma {:induction false} CursorsOf(events: seq<Event>, start: int, reverse: bool)
    requires events != [] && Sorted(events, reverse) && (!reverse ==> start <= events[0].id)
    ensures reverse ==> MinId(events) == Some(events[|events| - 1].id)
    ensures !reverse ==> NextStart(events, start) == events[|events| - 1].id + 1
  {
    var n := |events| - 1;
    if n > 0 {
      assert if reverse then events[n - 1].id > events[n].id else events[n - 1].id < events[n].id;
      CursorsOf(events[..n], start, reverse);
    } else {
      assert events[..n] == [];
    }
  }

  // ---- The client, round by round ----

  /** The upper end of a request, one past the last id asked for. */
  function EndOf(sv: Server, endCursor: Option<int>): int {
    if endCursor.Some? then endCursor.value + 1 else sv.nextId
  }

  /** Where the client stands between two requests. */
  datatype Progress = Progress(startCursor: int, endCursor: Option<int>, left: Option<int>, found: seq<Event>)

  datatype Turn = Stop(r: Result<seq<Event>, ClientError>) | Again(p: Progress)

  function Begin(startId: int, limit: Option<int>): Progress {
    Progress(startId, None, limit, [])
  }

  function PageLimit(left: Option<int>): int {
    if left.None? then SERVER_DEFAULT else if left.value < 100 then left.value else 100
  }

  /** The client asks for as many events as it still wants, at most 100, and gets 20 if it does not say; the
      server refuses a limit below 0 or above 100. */
  lemma LimitsExactly(sv: Server, start: int, endId: Option<int>, reverse: bool, limit: int, left: Option<int>)
    requires Sound(sv)
    ensures PageLimit(left) == if left.None? then 20 else if left.value > 100 then 100 else left.value
    ensures ServePage(sv, start, endId, reverse, limit) == None <==> limit < 0 || limit > 100
    ensures left.None? || left.value >= 0 ==> ServePage(sv, start, endId, reverse, PageLimit(left)).Some?
  {
    hide Hits, Indexes, PagesFull, OwnIds;
  }

  /** What follows from a page that has been read. */
  function Turned(p: Progress, events: seq<Event>, more: bool, endId: Option<int>, reverse: bool, filter: Filter): Turn {
    var (ys, left, finished) := ReadOf(events, endId, filter, p.left);
    if finished || !more then Stop(Ok(p.found + ys))
    else
      var m := MinId(events);
      Again(Progress(if reverse then p.startCursor else NextStart(events, p.startCursor),
                     if reverse && m.Some? then Some(m.value - 1) else p.endCursor, left, p.found + ys))
  }

  /** One request and the reading of its page. */
  function Round(sv: Server, p: Progress, endId: Option<int>, reverse: bool, filter: Filter): Turn
    requires Sound(sv)
  {
    match ServePage(sv, p.startCursor, p.endCursor, reverse, PageLimit(p.left))
    case None => Stop(Err(MalformedReply))
    case Some((events, more)) => Turned(p, events, more, endId, reverse, filter)
  }

  function Rounds(sv: Server, p: Progress, endId: Option<int>, reverse: bool, filter: Filter, n: nat): Turn
    requires Sound(sv)
  {
    if n == 0 then Again(p)
    else
      match Rounds(sv, p, endId, reverse, filter, n - 1)
      case Stop(r) => Stop(r)
      case Again(q) => Round(sv, q, endId, reverse, filter)
  }

  /** What the client has still to read. */
  function Rest(sv: Server, p: Progress, reverse: bool): seq<Event>
    requires Sound(sv)
  {
    Present(sv, p.startCursor, EndOf(sv, p.endCursor), reverse)
  }

  /** What has been found and what is wanted of the rest make up the result. */
  ghost predicate OnTrack(sv: Server, p: Progress, endId: Option<int>, reverse: bool, filter: Filter, result: seq<Event>)
    requires Sound(sv)
  {
    && EndOf(sv, p.endCursor) <= sv.nextId && (reverse || p.endCursor.None?)
    && (p.left.Some? ==> p.left.value > 0 || (p.left.value == 0 && Rest(sv, p, reverse) == []))
    && result == p.found + Want(Rest(sv, p, reverse), endId, filter, p.left)
  }

  lemma BeginOnTrack(sv: Server, startId: int, endId: Option<int>, reverse: bool, filter: Filter, limit: Option<int>)
    requires Sound(sv) && (limit.Some? ==> limit.value >= 0)
    requires limit == Some(0) ==> Present(sv, startId, sv.nextId, reverse) == []
    ensures OnTrack(sv, Begin(startId, limit), endId, reverse, filter, ClientSpec(sv, startId, endId, reverse, filter, limit))
  {
    hide Present, Want, Sound;
    var all := Present(sv, startId, sv.nextId, reverse);
    assert [] + Want(all, endId, filter, limit) == Want(all, endId, filter, limit);
  }

  /** The page of a request made on track is the beginning of what is left to read. */
  lemma PageOnTrack(sv: Server, p: Progress, reverse: bool)
    requires Sound(sv) && EndOf(sv, p.endCursor) <= sv.nextId && (p.left.Some? ==> p.left.value >= 0)
    ensures ServePage(sv, p.startCursor, p.endCursor, reverse, PageLimit(p.left)).Some?
    ensures var (events, more) := ServePage(sv, p.startCursor, p.endCursor, reverse, PageLimit(p.left)).value;
      var rest := Rest(sv, p, reverse);
      && events <= rest && (more <==> |events| < |rest|) && Sorted(events, reverse)
      && (events == [] && more ==> p.left == Some(0))
      && forall i | 0 <= i < |events| :: p.startCursor <= events[i].id
  {
    PageOf(sv, p.startCursor, p.endCursor, reverse, PageLimit(p.left));
    hide Present, Sound, ServePage;
    PresentSorted(sv, p.startCursor, EndOf(sv, p.endCursor), reverse);
  }

  /** The cursors after a page lead to exactly what lies beyond it. */
  lemma BeyondPage(sv: Server, p: Progress, events: seq<Event>, endId: Option<int>, reverse: bool, filter: Filter)
    requires Sound(sv) && EndOf(sv, p.endCursor) <= sv.nextId && (reverse || p.endCursor.None?)
    requires events <= Rest(sv, p, reverse) && events != [] && Sorted(events, reverse)
    requires forall i | 0 <= i < |events| :: p.startCursor <= events[i].id
    ensures var t := Turned(p, events, true, endId, reverse, filter);
      t.Again? ==>
      && Rest(sv, t.p, reverse) == Rest(sv, p, reverse)[|events|..]
      && EndOf(sv, t.p.endCursor) <= sv.nextId && (reverse || t.p.endCursor.None?)
  {
    hide Present, Sound, Sorted, ReadOf, MinId, NextStart;
    CursorsOf(events, p.startCursor, reverse);
    RestOfPresent(sv, p.startCursor, EndOf(sv, p.endCursor), reverse, |events|);
  }

  /** A round on track stops with the result, or goes on on track with less to read. */
  lemma RoundOnTrack(sv: Server, p: Progress, endId: Option<int>, reverse: bool, filter: Filter, result: seq<Event>)
    requires Sound(sv) && OnTrack(sv, p, endId, reverse, filter, result)
    ensures match Round(sv, p, endId, reverse, filter)
      case Stop(r) => r == Ok(result)
      case Again(q) => OnTrack(sv, q, endId, reverse, filter, result) && |Rest(sv, q, reverse)| < |Rest(sv, p, reverse)|
  {
    PageOnTrack(sv, p, reverse);
    var (events, more) := ServePage(sv, p.startCursor, p.endCursor, reverse, PageLimit(p.left)).value;
    hide ServePage;
    TurnOnTrack(sv, p, events, more, endId, reverse, filter, result);
  }

  lemma TurnOnTrack(sv: Server, p: Progress, events: seq<Event>, more: bool, endId: Option<int>, reverse: bool,
                    filter: Filter, result: seq<Event>)
    requires Sound(sv) && OnTrack(sv, p, endId, reverse, filter, result)
    requires events <= Rest(sv, p, reverse) && (more <==> |events| < |Rest(sv, p, reverse)|) && Sorted(events, reverse)
    requires events == [] && more ==> p.left == Some(0)
    requires forall i | 0 <= i < |events| :: p.startCursor <= events[i].id
    ensures match Turned(p, events, more, endId, reverse, filter)
      case Stop(r) => r == Ok(result)
      case Again(q) => OnTrack(sv, q, endId, reverse, filter, result) && |Rest(sv, q, reverse)| < |Rest(sv, p, reverse)|
  {
    hide Rest, Sound, Sorted, Want, ReadOf, MinId, NextStart;
    var rest := Rest(sv, p, reverse);
    var beyond := rest[|events|..];
    assert rest == events + beyond;
    PageYields(events, beyond, endId, filter, p.left);
    var (ys, left, finished) := ReadOf(events, endId, filter, p.left);
    assert p.found + (ys + Want(beyond, endId, filter, left)) == (p.found + ys) + Want(beyond, endId, filter, left);
    if !more {
      assert beyond == [];
      WantEmpty(endId, filter, left);
      assert (p.found + ys) + [] == p.found + ys;
    } else if !finished {
      BeyondPage(sv, p, events, endId, reverse, filter);
    }
  }

  /** The body of the loop: one request, the reading of its page, and the next cursors. */
  method Ask(sv: Server, p: Progress, endId: Option<int>, reverse: bool, filter: Filter) returns (t: Turn)
    requires Sound(sv)
    ensures t == Round(sv, p, endId, reverse, filter)
  {
    hide Sound, ServePage, ReadOf, MinId, NextStart;
    var pageLimit := if p.left.None? then SERVER_DEFAULT else if p.left.value < 100 then p.left.value else 100;
    var page := ServePage(sv, p.startCursor, p.endCursor, reverse, pageLimit);
    if page.None? {
      return Stop(Err(MalformedReply));
    }
    var (events, hasMore) := page.value;
    var yielded, left, finished, pageMinId, forwardNextStart :=
      ReadPage(events, p.startCursor, endId, reverse, filter, p.left);
    if finished {
      return Stop(Ok(p.found + yielded));
    }
    var startCursor, endCursor := p.startCursor, p.endCursor;
    if reverse && pageMinId.Some? {
      endCursor := Some(pageMinId.value - 1);
    } else if !reverse {
      startCursor := forwardNextStart;
    }
    if !hasMore {
      return Stop(Ok(p.found + yielded));
    }
    t := Again(Progress(startCursor, endCursor, left, p.found + yielded));
  }

  /** `search_events` of the client; `None` for the server is a conversation it does not know. */
  method SearchEvents(server: Option<Server>, startId: int, endId: Option<int>, reverse: bool, filter: Filter,
                      limit: Option<int>)
    returns (r: Result<seq<Event>, ClientError>)
    requires server.Some? ==> Sound(server.value)
    requires server.Some? && limit == Some(0) ==> Present(server.value, startId, server.value.nextId, reverse) == []
    ensures server.None? ==> r == Ok([])
    ensures server.Some? && limit.Some? && limit.value < 0 ==> r == Err(MalformedReply)
    ensures server.Some? && (limit.Some? ==> limit.value >= 0) ==>
      r == Ok(ClientSpec(server.value, startId, endId, reverse, filter, limit))
    ensures server.Some? ==>
      exists n: nat :: Rounds(server.value, Begin(startId, limit), endId, reverse, filter, n) == Stop(r)
  {
    if server.None? {
      return Ok([]);
    }
    var sv, p := server.value, Begin(startId, limit);
    ghost var n := 0;
    BeginUnderWay(sv, startId, endId, reverse, filter, limit);
    hide UnderWay, Right, Round, Rounds, Rest, Sound, Present, ClientSpec;
    while true
      invariant UnderWay(sv, startId, endId, reverse, filter, limit, p, n)
      decreases |Rest(sv, p, reverse)|
    {
      RoundUnderWay(sv, startId, endId, reverse, filter, limit, p, n);
      var turn := Ask(sv, p, endId, reverse, filter);
      if turn.Stop? {
        RightSays(sv, startId, endId, reverse, filter, limit, turn.r);
        return turn.r;
      }
      p, n := turn.p, n + 1;
    }
  }

  /** After `n` rounds the client stands at `p`, and is on track unless its first request will be refused. */
  ghost predicate UnderWay(sv: Server, startId: int, endId: Option<int>, reverse: bool, filter: Filter, limit: Option<int>,
                           p: Progress, n: nat)
    requires Sound(sv)
  {
    && Rounds(sv, Begin(startId, limit), endId, reverse, filter, n) == Again(p)
    && if limit.Some? && limit.value < 0 then p == Begin(startId, limit)
       else OnTrack(sv, p, endId, reverse, filter, ClientSpec(sv, startId, endId, reverse, filter, limit))
  }

  /** The client comes to `r`, and that is the result it should have. */
  ghost predicate Right(sv: Server, startId: int, endId: Option<int>, reverse: bool, filter: Filter, limit: Option<int>,
                        r: Result<seq<Event>, ClientError>)
    requires Sound(sv)
  {
    && (exists n: nat :: Rounds(sv, Begin(startId, limit), endId, reverse, filter, n) == Stop(r))
    && if limit.Some? && limit.value < 0 then r == Err(MalformedReply)
       else r == Ok(ClientSpec(sv, startId, endId, reverse, filter, limit))
  }

  lemma BeginUnderWay(sv: Server, startId: int, endId: Option<int>, reverse: bool, filter: Filter, limit: Option<int>)
    requires Sound(sv) && (limit == Some(0) ==> Present(sv, startId, sv.nextId, reverse) == [])
    ensures UnderWay(sv, startId, endId, reverse, filter, limit, Begin(startId, limit), 0)
  {
    hide OnTrack, Present, Sound;
    if limit.None? || limit.value >= 0 { BeginOnTrack(sv, startId, endId, reverse, filter, limit); }
  }

  lemma RoundUnderWay(sv: Server, startId: int, endId: Option<int>, reverse: bool, filter: Filter, limit: Option<int>,
                      p: Progress, n: nat)
    requires Sound(sv) && UnderWay(sv, startId, endId, reverse, filter, limit, p, n)
    ensures match Round(sv, p, endId, reverse, filter)
      case Stop(r) => Right(sv, startId, endId, reverse, filter, limit, r)
      case Again(q) =>
        && UnderWay(sv, startId, endId, reverse, filter, limit, q, n + 1)
        && |Rest(sv, q, reverse)| < |Rest(sv, p, reverse)|
  {
    OneMoreRound(sv, Begin(startId, limit), endId, reverse, filter, n);
    hide OnTrack, Round, Rounds, Rest, Sound, ClientSpec;
    if limit.Some? && limit.value < 0 {
      NegativeRefused(sv, p, endId, reverse, filter);
    } else {
      RoundOnTrack(sv, p, endId, reverse, filter, ClientSpec(sv, startId, endId, reverse, filter, limit));
    }
  }

  lemma RightSays(sv: Server, startId: int, endId: Option<int>, reverse: bool, filter: Filter, limit: Option<int>,
                  r: Result<seq<Event>, ClientError>)
    requires Sound(sv) && Right(sv, startId, endId, reverse, filter, limit, r)
    ensures limit.Some? && limit.value < 0 ==> r == Err(MalformedReply)
    ensures (limit.Some? ==> limit.value >= 0) ==> r == Ok(ClientSpec(sv, startId, endId, reverse, filter, limit))
    ensures exists n: nat :: Rounds(sv, Begin(startId, limit), endId, reverse, filter, n) == Stop(r)
  {
    hide Sound, Rounds, ClientSpec;
  }

  lemma OneMoreRound(sv: Server, p: Progress, endId: Option<int>, reverse: bool, filter: Filter, n: nat)
    requires Sound(sv) && Rounds(sv, p, endId, reverse, filter, n).Again?
    ensures Rounds(sv, p, endId, reverse, filter, n + 1)
         == Round(sv, Rounds(sv, p, endId, reverse, filter, n).p, endId, reverse, filter)
  {
  }

  /** The server refuses a negative limit. */
  lemma NegativeRefused(sv: Server, p: Progress, endId: Option<int>, reverse: bool, filter: Filter)
    requires Sound(sv)
    ensures p.left.Some? && p.left.value < 0 ==> Round(sv, p, endId, reverse, filter) == Stop(Err(MalformedReply))
  {
  }

  // ---- What following the pages amounts to ----

  lemma {:induction false} UpToEnd(xs: seq<Event>, endId: Option<int>)
    requires Avoids(xs, endId)
    ensures UpTo(xs, endId) == xs
  {
    UpToAppend(xs, [], endId);
    assert xs + [] == xs;
  }

  lemma {:induction false} FilteredHits(sv: Server, indexes: seq<int>, filter: Filter)
    requires Sound(sv)
    ensures Filtered(Hits(sv.store, sv.cacheSize, indexes, Any()), filter) == Hits(sv.store, sv.cacheSize, indexes, filter)
  {
    hide OwnIds, Lookup, PagesFull, Filtered;
    FilteredNone(filter);
    if indexes != [] {
      var n := |indexes| - 1;
      var last := Lookup(sv.store, sv.cacheSize, indexes[n]);
      FilteredHits(sv, indexes[..n], filter);
      FilteredAppend(Hits(sv.store, sv.cacheSize, indexes[..n], Any()), Wanted(last, Any()), filter);
      if last.Some? { FilteredOne(last.value, filter); }
    }
  }

  /** Without an end event, following the pages gives what a search of the store itself gives. */
  lemma RemoteIsLocal(sv: Server, startId: int, reverse: bool, filter: Filter, limit: Option<int>)
    requires Sound(sv) && (limit.Some? ==> limit.value > 0)
    ensures ClientSpec(sv, startId, None, reverse, filter, limit)
         == SearchSpec(sv.store, sv.cacheSize, startId, sv.nextId, reverse, filter, limit)
  {
    hide Sound, Hits, Filtered, UpTo;
    UpToEnd(Present(sv, startId, sv.nextId, reverse), None);
    FilteredHits(sv, Indexes(startId, sv.nextId, reverse), filter);
  }

  predicate Has(xs: seq<Event>, id: int) {
    exists i | 0 <= i < |xs| :: xs[i].id == id
  }

  /** Reaching the end event cuts what is read there: on the way up it is the upper end, but on the
      way down it is the lower end.  If it is not met, nothing is cut. */
  lemma EndEventCuts(sv: Server, startId: int, endId: int, reverse: bool)
    requires Sound(sv)
    ensures var all := Present(sv, startId, sv.nextId, reverse);
      UpTo(all, Some(endId)) ==
        if !Has(all, endId) then all
        else if reverse then Present(sv, endId, sv.nextId, true) else Present(sv, startId, endId + 1, false)
  {
    var all := Present(sv, startId, sv.nextId, reverse);
    hide Sound, Present;
    if !Has(all, endId) {
      UpToEnd(all, Some(endId));
    } else {
      var i :| 0 <= i < |all| && all[i].id == endId;
      EndEventMet(sv, startId, i, reverse);
    }
  }

  lemma EndEventMet(sv: Server, startId: int, i: nat, reverse: bool)
    requires Sound(sv) && i < |Present(sv, startId, sv.nextId, reverse)|
    ensures var all := Present(sv, startId, sv.nextId, reverse);
      UpTo(all, Some(all[i].id)) ==
        if reverse then Present(sv, all[i].id, sv.nextId, true) else Present(sv, startId, all[i].id + 1, false)
  {
    hide Sound, Present, Sorted, UpTo;
    var all := Present(sv, startId, sv.nextId, reverse);
    PresentSorted(sv, startId, sv.nextId, reverse);
    CutAtEnd(all, i, all[i].id, reverse);
    RestOfPresent(sv, startId, sv.nextId, reverse, i + 1);
    PresentSplit(sv, startId, if reverse then all[i].id else all[i].id + 1, sv.nextId);
    if reverse {
      SameFront(all, i + 1, Present(sv, all[i].id, sv.nextId, true));
    } else {
      SameFront(all, i + 1, Present(sv, startId, all[i].id + 1, false));
    }
  }

  lemma CutAtEnd(all: seq<Event>, i: nat, endId: int, reverse: bool)
    requires i < |all| && all[i].id == endId && Sorted(all, reverse)
    ensures UpTo(all, Some(endId)) == all[..i + 1]
  {
    assert all == all[..i] + all[i..];
    UpToAppend(all[..i], all[i..], Some(endId));
    assert all[i..][0] == all[i] && all[..i] + [all[i]] == all[..i + 1];
  }

  lemma SameFront(all: seq<Event>, n: nat, front: seq<Event>)
    requires n <= |all| && all == front + all[n..]
    ensures front == all[..n]
  {
    assert |front| == n;
  }

  // ---- Does the client come to an end? ----

  /** With limit 0 and an event to read every round leaves the client where it was. */
  lemma {:induction false} LimitZeroAsksAgain(sv: Server, p: Progress, endId: Option<int>, reverse: bool, filter: Filter, n: nat)
    requires Sound(sv) && p.left == Some(0) && Rest(sv, p, reverse) != []
    ensures Rounds(sv, p, endId, reverse, filter, n) == Again(p)
  {
    hide Rest, Round, Sound;
    if n > 0 {
      LimitZeroAsksAgain(sv, p, endId, reverse, filter, n - 1);
      ZeroRound(sv, p, endId, reverse, filter);
    }
  }

  lemma ZeroRound(sv: Server, p: Progress, endId: Option<int>, reverse: bool, filter: Filter)
    requires Sound(sv) && p.left == Some(0) && Rest(sv, p, reverse) != []
    ensures Round(sv, p, endId, reverse, filter) == Again(p)
  {
    PageOf(sv, p.startCursor, p.endCursor, reverse, 0);
    hide Present, Sound, ServePage;
    assert Rest(sv, p, reverse)[..0] == [] && p.found + [] == p.found;
  }

  lemma {:induction false} OnTrackEnds(sv: Server, p: Progress, endId: Option<int>, reverse: bool, filter: Filter,
                                       result: seq<Event>, n: nat, q: Progress) returns (m: nat)
    requires Sound(sv) && Rounds(sv, p, endId, reverse, filter, n) == Again(q)
    requires OnTrack(sv, q, endId, reverse, filter, result)
    ensures Rounds(sv, p, endId, reverse, filter, m) == Stop(Ok(result))
    decreases |Rest(sv, q, reverse)|
  {
    hide OnTrack, Rest, Round, Sound;
    RoundOnTrack(sv, q, endId, reverse, filter, result);
    m := n + 1;
    if Round(sv, q, endId, reverse, filter).Again? {
      m := OnTrackEnds(sv, p, endId, reverse, filter, result, n + 1, Round(sv, q, endId, reverse, filter).p);
    }
  }

  /** The client comes to an end exactly unless the limit is 0 and there is an event to read. */
  lemma EndsExactly(sv: Server, startId: int, endId: Option<int>, reverse: bool, filter: Filter, limit: Option<int>)
    requires Sound(sv)
    ensures (exists n: nat :: Rounds(sv, Begin(startId, limit), endId, reverse, filter, n).Stop?)
       <==> !(limit == Some(0) && Present(sv, startId, sv.nextId, reverse) != [])
  {
    var p := Begin(startId, limit);
    if limit == Some(0) && Present(sv, startId, sv.nextId, reverse) != [] {
      forall n: nat ensures Rounds(sv, p, endId, reverse, filter, n).Again? {
        LimitZeroAsksAgain(sv, p, endId, reverse, filter, n);
      }
    } else {
      var first := Rounds(sv, p, endId, reverse, filter, 0);
      if limit.Some? && limit.value < 0 {
        NegativeRefused(sv, p, endId, reverse, filter);
        OneMoreRound(sv, p, endId, reverse, filter, 0);
      } else {
        BeginOnTrack(sv, startId, endId, reverse, filter, limit);
        hide OnTrack, Round, Sound, Present;
        var m := OnTrackEnds(sv, p, endId, reverse, filter, ClientSpec(sv, startId, endId, reverse, filter, limit), 0, p);
      }
    }
  }

  /** Every state of the event stream is a sound server, whatever adds are in flight. */
  lemma StreamIsSound(cacheSize: int, s: EventStream.State, nextId: int)
    requires EventStream.Inv(cacheSize, s)
    ensures Sound(Server(s.sh.store, cacheSize, nextId))
  {
    hide Lookup, EventStream.LogOk, EventStream.PagesOk, EventStream.WriterOk, EventStream.FilesOk,
         EventStream.QueueOk, EventStream.OrderOk, EventStream.QueuedOrHeld;
    EventStream.ReadersSeeTheLog(cacheSize, s, 0);
    forall i | i < nextId
      ensures Lookup(s.sh.store, cacheSize, i).Some? ==> Lookup(s.sh.store, cacheSize, i).value.id == i
    {
      EventStream.ReadersSeeTheLog(cacheSize, s, i);
    }
  }
}
