/** A conversation's events on disk: one file per event, and pages of consecutive events as a cache. */
module PagedEvents {
  import opened Wrappers

  datatype Event = Event(id: int, body: string)

  /** `files` holds the event files, `pages` the cache pages under their (start, end). */
  datatype Store = Store(files: map<int, Event>, pages: map<(int, int), seq<Event>>)

  type Filter = Event -> bool

  /** Every cache page is as long as its key says. */
  predicate PagesFull(store: Store, cacheSize: int) {
    forall k | k in store.pages :: |store.pages[k]| == cacheSize && k.1 == k.0 + cacheSize
  }

  /** The key of the aligned page that covers `index`. */
  function PageKey(cacheSize: int, index: int): (k: (int, int))
    requires cacheSize > 0
    ensures k.0 <= index < k.1 == k.0 + cacheSize
  {
    (index - index % cacheSize, index - index % cacheSize + cacheSize)
  }

  /** The event a reader finds for an index: on the covering page, else in its own file. */
  function Lookup(store: Store, cacheSize: int, index: int): Option<Event>
    requires cacheSize > 0 && PagesFull(store, cacheSize)
  {
    var k := PageKey(cacheSize, index);
    if k in store.pages then Some(store.pages[k][index - k.0]) else ReadFile(store.files, index)
  }

  function ReadFile(files: map<int, Event>, index: int): Option<Event> {
    if index in files then Some(files[index]) else None
  }

  /** `range(start, end)` and `range(end - 1, start - 1, -1)` */
  function Indexes(start: int, end: int, reverse: bool): (r: seq<int>)
    ensures |r| == if start < end then end - start else 0
    ensures forall i | 0 <= i < |r| :: r[i] == if reverse then end - 1 - i else start + i
  {
    if start >= end then [] else seq(end - start, i => if reverse then end - 1 - i else start + i)
  }

  /** The events at the given indexes that are present and wanted, in that order. */
  function Hits(store: Store, cacheSize: int, indexes: seq<int>, filter: Filter): seq<Event>
    requires cacheSize > 0 && PagesFull(store, cacheSize)
  {
    if indexes == [] then []
    else
      var n := |indexes| - 1;
      Hits(store, cacheSize, indexes[..n], filter) + Wanted(Lookup(store, cacheSize, indexes[n]), filter)
  }

  function Wanted(e: Option<Event>, filter: Filter): seq<Event> {
    if e.Some? && filter(e.value) then [e.value] else []
  }

  /** No limit for `None` and 0; otherwise the search stops once the limit is reached, so at least
      one event is returned if there is any. */
  function CutLimit(xs: seq<Event>, limit: Option<int>): (r: seq<Event>)
    ensures r <= xs
  {
    if limit.None? || limit.value == 0 then xs
    else
      var n := if limit.value < 1 then 1 else limit.value;
      if n <= |xs| then xs[..n] else xs
  }

  function SearchSpec(store: Store, cacheSize: int, start: int, end: int, reverse: bool, filter: Filter,
                      limit: Option<int>): seq<Event>
    requires cacheSize > 0 && PagesFull(store, cacheSize)
  {
    CutLimit(Hits(store, cacheSize, Indexes(start, end, reverse), filter), limit)
  }

  /** The id a store reopened on these event files continues with. */
  predicate IsNextId(ids: set<int>, next: int) {
    next >= 0 && (forall id | id in ids :: id < next) && (next > 0 ==> next - 1 in ids)
  }

  lemma NextIdUnique(ids: set<int>, a: int, b: int)
    requires IsNextId(ids, a) && IsNextId(ids, b)
    ensures a == b
  {
  }

  lemma {:induction false} HitsSplit(store: Store, cacheSize: int, a: seq<int>, b: seq<int>, filter: Filter)
    requires cacheSize > 0 && PagesFull(store, cacheSize)
    ensures Hits(store, cacheSize, a + b, filter) == Hits(store, cacheSize, a, filter) + Hits(store, cacheSize, b, filter)
    decreases |b|
  {
    hide Lookup, PagesFull, Wanted;
    if b == [] {
      assert a + b == a;
    } else {
      var n := |b| - 1;
      var c := a + b;
      assert c[..|c| - 1] == a + b[..n] && c[|c| - 1] == b[n];
      HitsSplit(store, cacheSize, a, b[..n], filter);
    }
  }

  /** One more index. */
  lemma HitsStep(store: Store, cacheSize: int, all: seq<int>, n: nat, filter: Filter)
    requires cacheSize > 0 && PagesFull(store, cacheSize) && n < |all|
    ensures Hits(store, cacheSize, all[..n + 1], filter)
         == Hits(store, cacheSize, all[..n], filter) + Wanted(Lookup(store, cacheSize, all[n]), filter)
  {
    hide Lookup, PagesFull, Wanted;
    assert all[..n + 1][..n] == all[..n];
  }

  /** `_CachePage`: a page of the cache, or the news that there is none for these indexes. */
  datatype CachePage = CachePage(events: Option<seq<Event>>, start: int, end: int) {
    predicate Covers(index: int) {
      start <= index < end
    }

    function GetEvent(index: int): Option<Event>
      requires Covers(index) && (events.Some? ==> |events.value| == end - start)
    {
      if events.None? || events.value == [] then None else Some(events.value[index - start])
    }
  }

  const DUMMY_PAGE := CachePage(None, 1, -1)

  function LoadPage(store: Store, cacheSize: int, index: int): CachePage
    requires cacheSize > 0
  {
    var k := PageKey(cacheSize, index);
    CachePage(if k in store.pages then Some(store.pages[k]) else None, k.0, k.1)
  }

  /** A page in hand that covers an index is the page that would be loaded for it. */
  lemma PageInHand(store: Store, cacheSize: int, loadedFor: int, index: int)
    requires cacheSize > 0 && LoadPage(store, cacheSize, loadedFor).Covers(index)
    ensures LoadPage(store, cacheSize, loadedFor) == LoadPage(store, cacheSize, index)
  {
    SameMultiple(cacheSize, loadedFor, index);
  }

  lemma SameMultiple(n: int, i: int, j: int)
    requires n > 0 && i - i % n <= j < i - i % n + n
    ensures i - i % n == j - j % n
  {
    var p, q := i / n, j / n;
    assert i - i % n == n * p && j - j % n == n * q;
    var d := p - q;
    assert n * d == n * p - n * q;
    if d >= 1 { Grows(n, d); } else if d <= -1 { Grows(n, -d); }
  }

  lemma Grows(n: int, d: int)
    requires n > 0 && d >= 1
    ensures n * d >= n && n * (-d) <= -n
  {
  }

  lemma LookupByPage(store: Store, cacheSize: int, index: int)
    requires cacheSize > 0 && PagesFull(store, cacheSize)
    ensures var page := LoadPage(store, cacheSize, index);
      && page.Covers(index) && (page.events.Some? ==> |page.events.value| == page.end - page.start)
      && Lookup(store, cacheSize, index)
         == if page.GetEvent(index).Some? then page.GetEvent(index) else ReadFile(store.files, index)
  {
  }

  /** A search cut short at its limit has found what the whole search would return. */
  lemma CutEarly(found: seq<Event>, rest: seq<Event>, limit: Option<int>)
    requires limit.Some? && limit.value != 0 && |found| == if limit.value < 1 then 1 else limit.value
    ensures CutLimit(found + rest, limit) == found
  {
    assert (found + rest)[..|found|] == found;
  }

  class EventStore {
    const cacheSize: int
    var store: Store
    var curIdField: Option<int>

    constructor (store: Store, cacheSize: int)
      requires cacheSize > 0
      ensures this.store == store && this.cacheSize == cacheSize && curIdField == None
    {
      this.store := store;
      this.cacheSize := cacheSize;
      curIdField := None;
    }

    /** `_calculate_cur_id`, over the ids read from the listed file names (-1 for other names). */
    method CalculateCurId(ids: seq<int>) returns (next: int)
      requires forall i | 0 <= i < |ids| :: ids[i] >= -1
      ensures IsNextId(set i | 0 <= i < |ids| :: ids[i], next)
    {
      if ids == [] {
        return 0;
      }
      var maxId := -1;
      for i := 0 to |ids|
        invariant maxId >= -1 && (maxId >= 0 ==> maxId in ids)
        invariant forall j | 0 <= j < i :: ids[j] <= maxId
      {
        if ids[i] >= maxId {
          maxId := ids[i];
        }
      }
      next := maxId + 1;
    }

    /** The lazily computed property `cur_id`; the value is kept from then on. */
    method CurId(ids: seq<int>) returns (next: int)
      requires forall i | 0 <= i < |ids| :: ids[i] >= -1
      modifies this`curIdField
      ensures old(curIdField).Some? ==> next == old(curIdField).value
      ensures old(curIdField).None? ==> IsNextId(set i | 0 <= i < |ids| :: ids[i], next)
      ensures curIdField == Some(next)
    {
      if curIdField.None? {
        var n := CalculateCurId(ids);
        curIdField := Some(n);
      }
      next := curIdField.value;
    }

    /** `search_events` with its bounds resolved: from `start` up to but not including `end`. */
    method SearchEvents(start: int, end: int, reverse: bool, filter: Filter, limit: Option<int>)
      returns (found: seq<Event>)
      requires cacheSize > 0 && PagesFull(store, cacheSize)
      ensures found == SearchSpec(store, cacheSize, start, end, reverse, filter, limit)
    {
      hide Hits, Lookup, PageKey, PagesFull, CutLimit;
      found := [];
      var cachePage := DUMMY_PAGE;
      ghost var loadedFor: Option<int> := None;
      ghost var all := Indexes(start, end, reverse);
      var step := if reverse then -1 else 1;
      var index := if reverse then end - 1 else start;
      ghost var n := 0;
      NoHits(store, cacheSize, filter);
      while if reverse then index >= start else index < end
        invariant 0 <= n <= |all| && index == if reverse then end - 1 - n else start + n
        invariant start < end || n == 0
        invariant found == Hits(store, cacheSize, all[..n], filter)
        invariant limit.Some? && limit.value != 0 ==> |found| < (if limit.value < 1 then 1 else limit.value)
        invariant cachePage == match loadedFor case None => DUMMY_PAGE case Some(i) => LoadPage(store, cacheSize, i)
        decreases if reverse then index - start else end - index
      {
        assert all[n] == index;
        HitsStep(store, cacheSize, all, n, filter);
        LookupByPage(store, cacheSize, index);
        if !cachePage.Covers(index) {
          cachePage := LoadPage(store, cacheSize, index);
          loadedFor := Some(index);
        }
        PageInHand(store, cacheSize, loadedFor.value, index);
        var event := cachePage.GetEvent(index);
        if event.None? {
          event := ReadFile(store.files, index);
        }
        if event.Some? && filter(event.value) {
          found := found + [event.value];
          if limit.Some? && limit.value != 0 && limit.value <= |found| {
            assert all == all[..n + 1] + all[n + 1..];
            HitsSplit(store, cacheSize, all[..n + 1], all[n + 1..], filter);
            CutEarly(found, Hits(store, cacheSize, all[n + 1..], filter), limit);
            return;
          }
        }
        n := n + 1;
        index := index + step;
      }
      assert all[..n] == all;
      NotCut(found, limit);
    }

    /** `search_events` as called: the inclusive end id, or the current id if there is none. */
    method Search(ids: seq<int>, startId: int, endId: Option<int>, reverse: bool, filter: Filter, limit: Option<int>)
      returns (found: seq<Event>)
      requires cacheSize > 0 && PagesFull(store, cacheSize) && forall i | 0 <= i < |ids| :: ids[i] >= -1
      modifies this`curIdField
      ensures curIdField == old(curIdField) || (old(curIdField).None? && curIdField.Some?
        && IsNextId(set i | 0 <= i < |ids| :: ids[i], curIdField.value))
      ensures endId.None? ==> curIdField.Some?
      ensures found == SearchSpec(store, cacheSize, startId,
                         if endId.Some? then endId.value + 1 else curIdField.value, reverse, filter, limit)
    {
      var end: int;
      if endId.Some? {
        end := endId.value + 1;
      } else {
        end := CurId(ids);
      }
      found := SearchEvents(startId, end, reverse, filter, limit);
    }
  }

  lemma NoHits(store: Store, cacheSize: int, filter: Filter)
    requires cacheSize > 0 && PagesFull(store, cacheSize)
    ensures Hits(store, cacheSize, [], filter) == []
  {
  }

  lemma NotCut(found: seq<Event>, limit: Option<int>)
    requires limit.Some? && limit.value != 0 ==> |found| < (if limit.value < 1 then 1 else limit.value)
    ensures CutLimit(found, limit) == found
  {
  }

  // ---- Forward and backward ----

  function Reverse(s: seq<Event>): (r: seq<Event>)
    ensures |r| == |s|
  {
    if s == [] then [] else [s[|s| - 1]] + Reverse(s[..|s| - 1])
  }

  lemma {:induction false} ReverseAppend(a: seq<Event>, b: seq<Event>)
    ensures Reverse(a + b) == Reverse(b) + Reverse(a)
  {
    if b == [] {
      assert a + b == a;
    } else {
      assert (a + b)[..|a + b| - 1] == a + b[..|b| - 1];
      ReverseAppend(a, b[..|b| - 1]);
    }
  }

  lemma OneIndexMore(start: int, end: int)
    requires start < end
    ensures Indexes(start, end, false) == Indexes(start, end - 1, false) + [end - 1]
    ensures Indexes(start, end, true) == [end - 1] + Indexes(start, end - 1, true)
  {
  }

  /** Before the limit is applied, the reverse search is the reversal of the forward one. */
  lemma {:induction false} ReverseSearch(store: Store, cacheSize: int, start: int, end: int, filter: Filter)
    requires cacheSize > 0 && PagesFull(store, cacheSize)
    ensures Hits(store, cacheSize, Indexes(start, end, true), filter)
         == Reverse(Hits(store, cacheSize, Indexes(start, end, false), filter))
    decreases end - start
  {
    hide Hits, Lookup, PagesFull, Indexes, Reverse;
    if start >= end {
      NoHits(store, cacheSize, filter);
      ReverseShort([]);
    } else {
      var up, down := Indexes(start, end - 1, false), Indexes(start, end - 1, true);
      ReverseSearch(store, cacheSize, start, end - 1, filter);
      OneIndexMore(start, end);
      HitsSplit(store, cacheSize, up, [end - 1], filter);
      HitsSplit(store, cacheSize, [end - 1], down, filter);
      ReverseAppend(Hits(store, cacheSize, up, filter), Hits(store, cacheSize, [end - 1], filter));
      ReverseOne(store, cacheSize, end - 1, filter);
    }
  }

  lemma ReverseOne(store: Store, cacheSize: int, index: int, filter: Filter)
    requires cacheSize > 0 && PagesFull(store, cacheSize)
    ensures var h := Hits(store, cacheSize, [index], filter); Reverse(h) == h
  {
    hide Hits, PagesFull, Reverse;
    AtMostOneHit(store, cacheSize, index, filter);
    ReverseShort(Hits(store, cacheSize, [index], filter));
  }

  lemma AtMostOneHit(store: Store, cacheSize: int, index: int, filter: Filter)
    requires cacheSize > 0 && PagesFull(store, cacheSize)
    ensures |Hits(store, cacheSize, [index], filter)| <= 1
  {
    hide Lookup, PagesFull;
    assert [index][..0] == [];
  }

  lemma ReverseShort(h: seq<Event>)
    requires |h| <= 1
    ensures Reverse(h) == h
  {
    if h != [] { assert h[1..] == [] && h[..0] == [] && h == [h[0]]; }
  }

  // ---- What is found ----

  function Filtered(xs: seq<Event>, filter: Filter): seq<Event> {
    if xs == [] then [] else (if filter(xs[0]) then [xs[0]] else []) + Filtered(xs[1..], filter)
  }

  lemma {:induction false} FilteredAppend(a: seq<Event>, b: seq<Event>, filter: Filter)
    ensures Filtered(a + b, filter) == Filtered(a, filter) + Filtered(b, filter)
  {
    if a == [] {
      assert a + b == b;
    } else {
      assert (a + b)[1..] == a[1..] + b && (a + b)[0] == a[0];
      FilteredAppend(a[1..], b, filter);
      var f := if filter(a[0]) then [a[0]] else [];
      assert f + (Filtered(a[1..], filter) + Filtered(b, filter)) == (f + Filtered(a[1..], filter)) + Filtered(b, filter);
    }
  }

  lemma {:induction false} MultiplesApart(c: int, p: int, q: int)
    requires c > 0 && p < q
    ensures c * p + c <= c * q
    decreases q - p
  {
    if p + 1 < q {
      MultiplesApart(c, p, q - 1);
      assert c * q == c * (q - 1) + c;
    } else {
      assert c * q == c * p + c;
    }
  }

  lemma Remainder(cacheSize: int, page: nat, r: int)
    requires cacheSize > 0 && 0 <= r < cacheSize
    ensures (cacheSize * page + r) % cacheSize == r
  {
    var x := cacheSize * page + r;
    var q := x / cacheSize;
    assert x == cacheSize * q + x % cacheSize && 0 <= x % cacheSize < cacheSize;
    if q < page {
      MultiplesApart(cacheSize, q, page);
    } else if page < q {
      MultiplesApart(cacheSize, page, q);
    }
  }

  /** An event is looked for on the aligned page that covers its index, and otherwise in its own file. */
  lemma LookupExactly(store: Store, cacheSize: int, page: nat, r: int)
    requires cacheSize > 0 && PagesFull(store, cacheSize) && 0 <= r < cacheSize
    ensures var start := cacheSize * page;
      var key := (start, start + cacheSize);
      && (key in store.pages ==> Lookup(store, cacheSize, start + r) == Some(store.pages[key][r]))
      && (key !in store.pages ==>
            Lookup(store, cacheSize, start + r) == if start + r in store.files then Some(store.files[start + r]) else None)
  {
    Remainder(cacheSize, page, r);
  }

  /** An event is found exactly if it is there for one of the indexes and is wanted. */
  lemma {:induction false} HitsExactly(store: Store, cacheSize: int, indexes: seq<int>, filter: Filter, e: Event)
    requires cacheSize > 0 && PagesFull(store, cacheSize)
    ensures e in Hits(store, cacheSize, indexes, filter) <==>
      exists i | 0 <= i < |indexes| :: Lookup(store, cacheSize, indexes[i]) == Some(e) && filter(e)
  {
    hide Lookup, PagesFull;
    if indexes != [] {
      var n := |indexes| - 1;
      HitsExactly(store, cacheSize, indexes[..n], filter, e);
      assert forall i | 0 <= i < n :: indexes[..n][i] == indexes[i];
    }
  }

  /** What a limit means: none and 0 return everything, a positive one at most so many from the
      beginning, a negative one the first event only. */
  lemma LimitExactly(found: seq<Event>, limit: Option<int>)
    ensures limit.None? || limit.value == 0 ==> CutLimit(found, limit) == found
    ensures limit.Some? && limit.value > 0 ==>
      CutLimit(found, limit) <= found && |CutLimit(found, limit)| == if |found| < limit.value then |found| else limit.value
    ensures limit.Some? && limit.value < 0 ==> CutLimit(found, limit) == if found == [] then [] else [found[0]]
  {
  }
}
