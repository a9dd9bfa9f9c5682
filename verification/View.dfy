/** The view of an event history that a condenser leaves: forgotten events are dropped and the latest
    summary is put in their place. */
module View {
  import opened Wrappers

  /** `Summary` is the observation the view itself inserts; it has no id of its own. */
  datatype Kind =
    | Ordinary(body: string)
    | Condensation(forgotten: set<int>, summary: Option<string>, offset: Option<int>)
    | Request
    | Summary(text: string)

  datatype Event = Event(id: int, kind: Kind)

  datatype View = View(events: seq<Event>, unhandledRequest: bool)

  const NO_ID := -1

  // ---- What the view is ----

  function ForgottenBy(e: Event): set<int> {
    match e.kind
    case Condensation(forgotten, _, _) => forgotten + {e.id}
    case Request => {e.id}
    case _ => {}
  }

  function Forgotten(events: seq<Event>): set<int> {
    if events == [] then {} else Forgotten(events[..|events| - 1]) + ForgottenBy(events[|events| - 1])
  }

  function Kept(events: seq<Event>, forgotten: set<int>): seq<Event> {
    if events == [] then []
    else
      var n := |events| - 1;
      Kept(events[..n], forgotten) + if events[n].id in forgotten then [] else [events[n]]
  }

  predicate CarriesSummary(e: Event) {
    e.kind.Condensation? && e.kind.summary.Some? && e.kind.offset.Some?
  }

  /** The summary of the latest condensation that carries one, and its offset. */
  function LatestSummary(events: seq<Event>): Option<(string, int)> {
    if events == [] then None
    else
      var last := events[|events| - 1];
      if CarriesSummary(last) then Some((last.kind.summary.value, last.kind.offset.value))
      else LatestSummary(events[..|events| - 1])
  }

  /** Where `list.insert` puts an element: a negative offset counts from the end, and both ends clamp. */
  function InsertAt(offset: int, length: nat): (k: nat)
    ensures k <= length
  {
    if offset < 0 then (if length + offset < 0 then 0 else length + offset)
    else if offset > length then length else offset
  }

  function WithSummary(kept: seq<Event>, summary: Option<(string, int)>): seq<Event> {
    if summary.None? then kept
    else
      var k := InsertAt(summary.value.1, |kept|);
      kept[..k] + [Event(NO_ID, Summary(summary.value.0))] + kept[k..]
  }

  predicate Unhandled(events: seq<Event>) {
    events != [] &&
    var last := events[|events| - 1];
    last.kind.Request? || (!last.kind.Condensation? && Unhandled(events[..|events| - 1]))
  }

  function ViewOf(events: seq<Event>): View {
    View(WithSummary(Kept(events, Forgotten(events)), LatestSummary(events)), Unhandled(events))
  }

  // ---- from_events ----

  method FromEvents(events: seq<Event>) returns (v: View)
    ensures v == ViewOf(events)
  {
    hide InsertAt;
    var forgotten: set<int> := {};
    for i := 0 to |events|
      invariant forgotten == Forgotten(events[..i])
    {
      assert events[..i + 1][..i] == events[..i];
      var event := events[i];
      if event.kind.Condensation? {
        forgotten := forgotten + event.kind.forgotten;
        forgotten := forgotten + {event.id};
      }
      if event.kind.Request? {
        forgotten := forgotten + {event.id};
      }
    }
    assert events[..|events|] == events;
    var kept := Kept(events, forgotten);
    var summary: Option<(string, int)> := None;
    var i := |events|;
    while i > 0
      invariant 0 <= i <= |events| && LatestSummary(events) == if summary.Some? then summary else LatestSummary(events[..i])
      invariant summary.None?
    {
      var event := events[i - 1];
      assert events[..i][..i - 1] == events[..i - 1];
      if event.kind.Condensation? && event.kind.summary.Some? && event.kind.offset.Some? {
        summary := Some((event.kind.summary.value, event.kind.offset.value));
        break;
      }
      i := i - 1;
    }
    assert LatestSummary(events) == summary;
    if summary.Some? {
      var k := InsertAt(summary.value.1, |kept|);
      kept := kept[..k] + [Event(NO_ID, Summary(summary.value.0))] + kept[k..];
    }
    var unhandled := UnhandledRequest(events);
    v := View(kept, unhandled);
  }

  method UnhandledRequest(events: seq<Event>) returns (unhandled: bool)
    ensures unhandled == Unhandled(events)
  {
    var i := |events|;
    assert events[..i] == events;
    while i > 0
      invariant 0 <= i <= |events| && Unhandled(events) == Unhandled(events[..i])
    {
      assert events[..i][..i - 1] == events[..i - 1];
      if events[i - 1].kind.Condensation? {
        return false;
      }
      if events[i - 1].kind.Request? {
        return true;
      }
      i := i - 1;
    }
    unhandled := false;
  }

  // ---- What is forgotten, and which summary counts ----

  /** An id is forgotten exactly if a condensation names it or it belongs to a condensation or a request. */
  lemma {:induction false} ForgottenExactly(events: seq<Event>, id: int)
    ensures id in Forgotten(events) <==>
      exists i | 0 <= i < |events| ::
        || (events[i].kind.Condensation? && (id in events[i].kind.forgotten || id == events[i].id))
        || (events[i].kind.Request? && id == events[i].id)
  {
    if events != [] {
      var n := |events| - 1;
      ForgottenExactly(events[..n], id);
      assert forall i | 0 <= i < n :: events[..n][i] == events[i];
    }
  }

  /** The summary that counts is that of a condensation after which none carries one. */
  lemma {:induction false} LatestSummaryIs(events: seq<Event>)
    ensures match LatestSummary(events)
      case None =>
        forall i | 0 <= i < |events| && events[i].kind.Condensation? :: events[i].kind.summary.None? || events[i].kind.offset.None?
      case Some((text, offset)) =>
        exists i | 0 <= i < |events| && events[i].kind.Condensation? ::
          && events[i].kind.summary == Some(text) && events[i].kind.offset == Some(offset)
          && forall j | i < j < |events| && events[j].kind.Condensation? ::
               events[j].kind.summary.None? || events[j].kind.offset.None?
  {
    if events != [] {
      var n := |events| - 1;
      LatestSummaryIs(events[..n]);
      assert forall i | 0 <= i < n :: events[..n][i] == events[i];
      if CarriesSummary(events[n]) {
        assert events[n].kind.summary == Some(events[n].kind.summary.value);
      }
    }
  }

  // ---- What is kept ----

  lemma {:induction false} ForgottenAppend(a: seq<Event>, b: seq<Event>)
    ensures Forgotten(a + b) == Forgotten(a) + Forgotten(b)
  {
    if b == [] {
      assert a + b == a;
    } else {
      assert (a + b)[..|a + b| - 1] == a + b[..|b| - 1];
      ForgottenAppend(a, b[..|b| - 1]);
    }
  }

  lemma {:induction false} KeptAppend(a: seq<Event>, b: seq<Event>, forgotten: set<int>)
    ensures Kept(a + b, forgotten) == Kept(a, forgotten) + Kept(b, forgotten)
  {
    if b == [] {
      assert a + b == a;
    } else {
      assert (a + b)[..|a + b| - 1] == a + b[..|b| - 1];
      KeptAppend(a, b[..|b| - 1], forgotten);
    }
  }

  lemma {:induction false} KeptIn(events: seq<Event>, forgotten: set<int>, e: Event)
    ensures e in Kept(events, forgotten) <==> e in events && e.id !in forgotten
  {
    if events != [] {
      var n := |events| - 1;
      assert events == events[..n] + [events[n]];
      KeptIn(events[..n], forgotten, e);
    }
  }

  predicate Subsequence(a: seq<Event>, b: seq<Event>) {
    a == [] ||
    (b != [] && Subsequence(if a[|a| - 1] == b[|b| - 1] then a[..|a| - 1] else a, b[..|b| - 1]))
  }

  predicate Numbered(events: seq<Event>) {
    && (forall i | 0 <= i < |events| :: events[i].id >= 0 && !events[i].kind.Summary?)
    && (forall i, j | 0 <= i < j < |events| :: events[i].id < events[j].id)
  }

  lemma {:induction false} KeptInOrder(events: seq<Event>, forgotten: set<int>)
    requires Numbered(events)
    ensures Subsequence(Kept(events, forgotten), events)
  {
    if events != [] {
      var n := |events| - 1;
      KeptInOrder(events[..n], forgotten);
      var k := Kept(events[..n], forgotten);
      if events[n].id in forgotten {
        assert Kept(events, forgotten) == k;
        if k != [] {
          KeptIn(events[..n], forgotten, k[|k| - 1]);
          var i :| 0 <= i < n && events[..n][i] == k[|k| - 1];
          assert events[i].id < events[n].id;
        }
      } else {
        assert (k + [events[n]])[..|k|] == k;
      }
    }
  }

  function WithoutSummaries(xs: seq<Event>): seq<Event> {
    if xs == [] then []
    else WithoutSummaries(xs[..|xs| - 1]) + if xs[|xs| - 1].kind.Summary? then [] else [xs[|xs| - 1]]
  }

  lemma {:induction false} WithoutAppend(a: seq<Event>, b: seq<Event>)
    ensures WithoutSummaries(a + b) == WithoutSummaries(a) + WithoutSummaries(b)
  {
    if b == [] {
      assert a + b == a;
    } else {
      assert (a + b)[..|a + b| - 1] == a + b[..|b| - 1];
      WithoutAppend(a, b[..|b| - 1]);
    }
  }

  lemma {:induction false} WithoutNone(xs: seq<Event>)
    requires forall i | 0 <= i < |xs| :: !xs[i].kind.Summary?
    ensures WithoutSummaries(xs) == xs
  {
    if xs != [] { WithoutNone(xs[..|xs| - 1]); }
  }

  /** The view is the history without the forgotten events, in order, with at most one summary, the
      latest, put in at its clamped offset. */
  lemma ViewIs(events: seq<Event>)
    requires Numbered(events)
    ensures var v := ViewOf(events).events;
      var kept := WithoutSummaries(v);
      && Subsequence(kept, events)
      && (forall e :: e in kept <==> e in events && e.id !in Forgotten(events))
      && |v| == |kept| + (if LatestSummary(events).Some? then 1 else 0)
      && (LatestSummary(events).Some? ==>
            v[InsertAt(LatestSummary(events).value.1, |kept|)] == Event(NO_ID, Summary(LatestSummary(events).value.0)))
  {
    hide Forgotten, LatestSummary, Subsequence, InsertAt;
    var f, s := Forgotten(events), LatestSummary(events);
    var kept := Kept(events, f);
    KeptInOrder(events, f);
    forall e ensures e in kept <==> e in events && e.id !in f { KeptIn(events, f, e); }
    WithoutNone(kept);
    if s.Some? {
      var k := InsertAt(s.value.1, |kept|);
      var one := [Event(NO_ID, Summary(s.value.0))];
      SplitAround(kept, k, one);
    }
  }

  /** Where the one summary stands among the kept events: at the offset of its condensation, counted
      from the end if negative, and at the nearer end if there is no such place. */
  lemma SummaryStandsAt(events: seq<Event>, text: string, offset: int)
    requires Numbered(events) && LatestSummary(events) == Some((text, offset))
    ensures var v := ViewOf(events).events;
      var n := |WithoutSummaries(v)|;
      && |v| == n + 1
      && (0 <= offset <= n ==> v[offset] == Event(-1, Summary(text)))
      && (offset > n ==> v[n] == Event(-1, Summary(text)))
      && (offset < 0 && -offset <= n ==> v[n + offset] == Event(-1, Summary(text)))
      && (-offset > n ==> v[0] == Event(-1, Summary(text)))
  {
    ViewIs(events);
    hide Forgotten, LatestSummary, Subsequence, ViewOf, WithoutSummaries;
  }

  /** An ordinary event is in the view exactly if no condensation of the history forgets it; requests,
      condensations and forgotten events are not. */
  lemma SeenExactly(events: seq<Event>, i: nat)
    requires Numbered(events) && i < |events|
    ensures events[i] in ViewOf(events).events <==>
      && !events[i].kind.Condensation? && !events[i].kind.Request?
      && forall j | 0 <= j < |events| && events[j].kind.Condensation? :: events[i].id !in events[j].kind.forgotten
  {
    var e := events[i];
    ViewIs(events);
    ForgottenExactly(events, e.id);
    WithoutSummariesKeeps(ViewOf(events).events, e);
    hide Forgotten, LatestSummary, Subsequence, ViewOf, WithoutSummaries, InsertAt;
    assert e in events;
    assert forall j | 0 <= j < |events| && events[j].id == e.id :: j == i;
  }

  lemma {:induction false} WithoutSummariesKeeps(xs: seq<Event>, e: Event)
    requires !e.kind.Summary?
    ensures e in WithoutSummaries(xs) <==> e in xs
  {
    if xs != [] {
      var n := |xs| - 1;
      assert xs == xs[..n] + [xs[n]];
      WithoutSummariesKeeps(xs[..n], e);
    }
  }

  lemma SplitAround(kept: seq<Event>, k: nat, one: seq<Event>)
    requires k <= |kept| && |one| == 1 && one[0].kind.Summary? && forall i | 0 <= i < |kept| :: !kept[i].kind.Summary?
    ensures WithoutSummaries(kept[..k] + one + kept[k..]) == kept
  {
    WithoutOne(one);
    hide WithoutSummaries;
    WithoutNone(kept[..k]);
    WithoutNone(kept[k..]);
    WithoutAppend(kept[..k], one);
    WithoutAppend(kept[..k] + one, kept[k..]);
    assert kept[..k] + [] == kept[..k];
    assert kept[..k] + kept[k..] == kept;
  }

  lemma WithoutOne(one: seq<Event>)
    requires |one| == 1 && one[0].kind.Summary?
    ensures WithoutSummaries(one) == []
  {
    assert one[..0] == [];
  }

  // ---- Growing histories ----

  /** An event once forgotten is in no view of a longer history. */
  lemma ForgottenForGood(events: seq<Event>, more: seq<Event>, e: Event)
    requires Numbered(events + more) && e in events && e.id in Forgotten(events)
    ensures e !in ViewOf(events + more).events
  {
    var all := events + more;
    ForgottenAppend(events, more);
    KeptIn(all, Forgotten(all), e);
    var i :| 0 <= i < |events| && events[i] == e;
    assert all[i] == e && e.id >= 0;
    hide Forgotten, Kept, LatestSummary, InsertAt, Unhandled;
  }

  predicate InRange(summary: Option<(string, int)>, length: nat) {
    summary.Some? ==> summary.value.1 <= length && (summary.value.1 >= 0 || length + 1 + summary.value.1 <= 0)
  }

  lemma LatestAppend(events: seq<Event>, e: Event)
    requires !CarriesSummary(e)
    ensures LatestSummary(events + [e]) == LatestSummary(events)
  {
    assert (events + [e])[..|events|] == events;
  }

  /** An ordinary new event is added at the end of the view exactly when the offset of the latest
      summary lies within what is kept, or so far below zero that it stays clamped at the front. */
  lemma NewEventComesLast(events: seq<Event>, e: Event)
    requires Numbered(events + [e]) && e.kind.Ordinary? && e.id !in Forgotten(events)
    ensures ViewOf(events + [e]).events == ViewOf(events).events + [e]
       <==> InRange(LatestSummary(events), |Kept(events, Forgotten(events))|)
  {
    var f, s := Forgotten(events), LatestSummary(events);
    var kept := Kept(events, f);
    OrdinaryKept(events, e);
    LatestAppend(events, e);
    hide Forgotten, Kept, LatestSummary, InsertAt, Unhandled, InRange, WithSummary;
    forall i | 0 <= i < |kept| ensures kept[i].id >= 0 { KeptIn(events, f, kept[i]); assert kept[i] in events + [e]; }
    assert s.None? ==> WithSummary(kept + [e], s) == WithSummary(kept, s) + [e] && InRange(s, |kept|) by { NoSummary(kept, e); }
    if s.Some? { Inserted(kept, e, s.value.0, s.value.1); }
  }

  lemma NoSummary(kept: seq<Event>, e: Event)
    ensures WithSummary(kept + [e], None) == WithSummary(kept, None) + [e] && InRange(None, |kept|)
  {
  }

  lemma OrdinaryKept(events: seq<Event>, e: Event)
    requires e.kind.Ordinary? && e.id !in Forgotten(events)
    ensures Forgotten(events + [e]) == Forgotten(events)
    ensures Kept(events + [e], Forgotten(events)) == Kept(events, Forgotten(events)) + [e]
  {
    assert (events + [e])[..|events|] == events;
  }

  lemma Inserted(kept: seq<Event>, e: Event, text: string, offset: int)
    requires e.id >= 0 && forall i | 0 <= i < |kept| :: kept[i].id >= 0
    ensures WithSummary(kept + [e], Some((text, offset))) == WithSummary(kept, Some((text, offset))) + [e]
       <==> InRange(Some((text, offset)), |kept|)
  {
    var k, l := InsertAt(offset, |kept|), InsertAt(offset, |kept| + 1);
    var s := Event(NO_ID, Summary(text));
    var a, b := WithSummary(kept + [e], Some((text, offset))), WithSummary(kept, Some((text, offset))) + [e];
    if k == l {
      assert (kept + [e])[..k] == kept[..k] && (kept + [e])[k..] == kept[k..] + [e];
      assert a == b;
    } else {
      assert l == k + 1 && a[k] == (kept + [e])[k] && b[k] == s;
      assert a[k].id >= 0;
    }
  }

  /** A request after which no condensation comes. */
  predicate Pends(events: seq<Event>, i: nat) {
    i < |events| && events[i].kind.Request? && forall j | i < j < |events| :: !events[j].kind.Condensation?
  }

  /** A request is pending exactly when no condensation comes after the latest one. */
  lemma {:induction false} UnhandledExactly(events: seq<Event>)
    ensures Unhandled(events) <==> exists i :: Pends(events, i)
  {
    if events != [] {
      var n := |events| - 1;
      UnhandledExactly(events[..n]);
      forall i: nat | i < n ensures Pends(events, i) <==> Pends(events[..n], i) && !events[n].kind.Condensation? {
        PendsOneMore(events, i);
      }
      assert Pends(events, n) <==> events[n].kind.Request?;
      hide Pends;
      if i :| Pends(events[..n], i) { PendsInside(events[..n], i); }
      if i :| Pends(events, i) { PendsInside(events, i); }
    }
  }

  lemma PendsInside(events: seq<Event>, i: nat)
    requires Pends(events, i)
    ensures i < |events|
  {
  }

  lemma PendsOneMore(events: seq<Event>, i: nat)
    requires i < |events| - 1
    ensures Pends(events, i) <==> Pends(events[..|events| - 1], i) && !events[|events| - 1].kind.Condensation?
  {
    var front := events[..|events| - 1];
    assert forall j | 0 <= j < |front| :: front[j] == events[j];
  }
}
