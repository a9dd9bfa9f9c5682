/** Controller, runtime, memory and user around one stream: what is executed, and when the controller
    lets a pending action go. */
module ConfirmationRuns {
  import opened Wrappers
  import opened Controller

  // ---- The runtime ----

  /** Does the runtime carry the action out?  Calls to tool servers skip the confirmation checks. */
  predicate Runs(p: Payload) {
    p.Runnable? && (p.kind.Mcp? || (p.status != Some(AwaitingConfirmation) && p.status != Some(Refused)))
  }

  /** What the runtime publishes in answer to the event with this id; `worked` is false if executing gave
      nothing to publish. */
  function Reply(e: Event, id: nat, worked: bool): Option<Event> {
    if Runs(e.payload) || e.payload.Thought? then
      if worked then Some(Event(Obs(false), Some(id), e.meta, false)) else None
    else if e.payload.Runnable? && e.payload.status == Some(Refused) then Some(Event(Obs(true), Some(id), e.meta, false))
    else None
  }

  class Runtime {
    var executed: seq<Option<nat>>

    constructor ()
      ensures executed == []
    {
      executed := [];
    }

    /** `run_action`: `None` is the empty observation. */
    method RunAction(p: Payload, worked: bool) returns (o: Option<Payload>)
      requires !IsObservation(p) && !(p.Runnable? && p.kind.Mcp?)
      modifies this
      ensures executed == old(executed) + if Runs(p) then [p.token] else []
      ensures o == if p.Thought? || Runs(p) then (if worked then Some(Obs(false)) else None)
                   else if p.Runnable? && p.status == Some(Refused) then Some(Obs(true)) else None
    {
      if !p.Runnable? {
        return if p.Thought? && worked then Some(Obs(false)) else None;
      }
      if p.status == Some(AwaitingConfirmation) {
        return None;
      }
      if p.status == Some(Refused) {
        return Some(Obs(true));
      }
      executed := executed + [p.token];
      o := if worked then Some(Obs(false)) else None;
    }

    /** `_handle_action`: a refused action is answered by a rejection and nothing else, a waiting one by nothing. */
    method HandleAction(e: Event, id: nat, worked: bool) returns (reply: Option<Event>)
      requires !IsObservation(e.payload)
      modifies this
      ensures executed == old(executed) + if Runs(e.payload) then [e.payload.token] else []
      ensures reply == Reply(e, id, worked)
      ensures e.payload.Runnable? && !e.payload.kind.Mcp? && e.payload.status == Some(Refused) ==>
        executed == old(executed) && reply == Some(Event(Obs(true), Some(id), e.meta, false))
      ensures e.payload.Runnable? && !e.payload.kind.Mcp? && e.payload.status == Some(AwaitingConfirmation) ==>
        executed == old(executed) && reply == None
    {
      var o;
      if e.payload.Runnable? && e.payload.kind.Mcp? {
        executed := executed + [e.payload.token];
        o := if worked then Some(Obs(false)) else None;
      } else {
        o := RunAction(e.payload, worked);
      }
      if o.None? {
        return None;
      }
      return Some(Event(o.value, Some(id), e.meta, false));
    }
  }

  // ---- The whole ----

  /** Each component has handled the events before its place.  `reply` is what the runtime is about to publish. */
  datatype St = St(ctl: Ctl, ctlAt: nat, runAt: nat, memAt: nat, reply: Option<Event>, executed: seq<Option<nat>>)

  datatype Step =
    | Control(d: Decision)
    | SetDirectly(to: AgentState)
    | Execute(worked: bool)
    | SendReply
    | Remember(answers: bool, empty: bool)
    | Publish(e: Event)

  predicate Enabled(s: St, step: Step) {
    match step
    case Control(_) => s.ctlAt < |s.ctl.log|
    case SetDirectly(_) => true
    case Execute(_) => s.runAt < |s.ctl.log| && s.reply.None?
    case SendReply => s.reply.Some?
    case Remember(_, _) => s.memAt < |s.ctl.log|
    case Publish(e) => e.payload.Runnable? ==> e.payload.token.None?
  }

  function Next(cfg: Config, s: St, step: Step): St
    requires Enabled(s, step)
  {
    match step
    case Control(d) => s.(ctl := OnEvent(cfg, s.ctl, s.ctl.log[s.ctlAt], d), ctlAt := s.ctlAt + 1)
    case SetDirectly(to) => s.(ctl := SetState(s.ctl, to))
    case Execute(worked) =>
      var e := s.ctl.log[s.runAt];
      s.(runAt := s.runAt + 1, reply := Reply(e, s.runAt, worked),
         executed := if Runs(e.payload) then s.executed + [e.payload.token] else s.executed)
    case SendReply => s.(ctl := Add(s.ctl, s.reply.value), reply := None)
    case Remember(answers, empty) =>
      s.(memAt := s.memAt + 1,
         ctl := if s.ctl.log[s.memAt].payload.Recall? && answers then
                  Add(s.ctl, Event(if empty then NullObs else Obs(false), Some(s.memAt), None, false))
                else s.ctl)
    case Publish(e) => s.(ctl := Add(s.ctl, e))
  }

  const INITIAL := St(Ctl(Loading, None, [], None, [], 0), 0, 0, 0, None, [])

  predicate Possible(cfg: Config, s: St, steps: seq<Step>)
    decreases |steps|
  {
    steps == [] || (Enabled(s, steps[0]) && Possible(cfg, Next(cfg, s, steps[0]), steps[1..]))
  }

  function RunFrom(cfg: Config, s: St, steps: seq<Step>): St
    requires Possible(cfg, s, steps)
    decreases |steps|
  {
    if steps == [] then s else RunFrom(cfg, Next(cfg, s, steps[0]), steps[1..])
  }

  // ---- Counting publications ----

  predicate RunsToken(e: Event, t: nat) {
    Runs(e.payload) && e.payload.token == Some(t)
  }

  /** How many events of the log make the runtime execute action `t`. */
  function Releases(log: seq<Event>, t: nat): nat {
    if log == [] then 0 else Releases(log[..|log| - 1], t) + if RunsToken(log[|log| - 1], t) then 1 else 0
  }

  function CountOf(xs: seq<Option<nat>>, t: nat): nat {
    if xs == [] then 0 else CountOf(xs[..|xs| - 1], t) + if xs[|xs| - 1] == Some(t) then 1 else 0
  }

  lemma ReleasesOne(log: seq<Event>, e: Event, t: nat)
    ensures Releases(log + [e], t) == Releases(log, t) + if RunsToken(e, t) then 1 else 0
  {
    assert (log + [e])[..|log|] == log;
  }

  lemma CountOne(xs: seq<Option<nat>>, x: Option<nat>, t: nat)
    ensures CountOf(xs + [x], t) == CountOf(xs, t) + if x == Some(t) then 1 else 0
  {
    assert (xs + [x])[..|xs|] == xs;
  }

  /** The state asked for by a change-of-state event or from outside. */
  function Asked(s: St, step: Step): Option<AgentState>
    requires Enabled(s, step)
  {
    match step
    case Control(_) =>
      var e := s.ctl.log[s.ctlAt];
      if e.payload.ChangeState? && !e.hidden then Some(e.payload.to) else None
    case SetDirectly(to) => Some(to)
    case _ => None
  }

  predicate Holds(c: Ctl, t: nat) {
    c.pending.Some? && c.pending.value.payload.Runnable? && c.pending.value.payload.token == Some(t)
  }

  /** The user's confirmation while `t` is the pending action. */
  predicate Confirms(s: St, step: Step, t: nat)
    requires Enabled(s, step)
  {
    Asked(s, step) == Some(UserConfirmed) && !s.ctl.agentState.UserConfirmed? && Holds(s.ctl, t)
  }

  /** A refusal while `t` is pending that does not reach the runtime as a refusal. */
  predicate LostRefusal(s: St, step: Step, t: nat)
    requires Enabled(s, step)
  {
    && Asked(s, step) == Some(UserRejected) && !s.ctl.agentState.UserRejected? && Holds(s.ctl, t)
    && !Declares(s.ctl.pending.value.payload.kind)
  }

  /** The agent decides on action `t` in this step. */
  predicate Decides(cfg: Config, s: St, step: Step, t: nat)
    requires Enabled(s, step)
  {
    Next(cfg, s, step).ctl.nextToken > s.ctl.nextToken == t
  }

  /** The agent decides on `t` and the event it publishes is one the runtime executes. */
  predicate Unasked(cfg: Config, s: St, step: Step, t: nat)
    requires Enabled(s, step)
  {
    && Decides(cfg, s, step, t) && step.Control? && step.d.Act?
    && !(Awaits(cfg, step.d.kind, step.d.risk) && Declares(step.d.kind))
  }

  /** How many steps of the run confirm `t`, refuse it in vain, or publish it without waiting. */
  function ConfirmCount(cfg: Config, s: St, steps: seq<Step>, t: nat): nat
    requires Possible(cfg, s, steps)
    decreases |steps|
  {
    if steps == [] then 0
    else (if Confirms(s, steps[0], t) then 1 else 0) + ConfirmCount(cfg, Next(cfg, s, steps[0]), steps[1..], t)
  }

  function LostRefusalCount(cfg: Config, s: St, steps: seq<Step>, t: nat): nat
    requires Possible(cfg, s, steps)
    decreases |steps|
  {
    if steps == [] then 0
    else (if LostRefusal(s, steps[0], t) then 1 else 0) + LostRefusalCount(cfg, Next(cfg, s, steps[0]), steps[1..], t)
  }

  function UnaskedCount(cfg: Config, s: St, steps: seq<Step>, t: nat): nat
    requires Possible(cfg, s, steps)
    decreases |steps|
  {
    if steps == [] then 0
    else (if Unasked(cfg, s, steps[0], t) then 1 else 0) + UnaskedCount(cfg, Next(cfg, s, steps[0]), steps[1..], t)
  }

  // ---- What each transition publishes ----

  /** A change of state releases `t` only by a confirmation, or a refusal that gets lost, while it is pending. */
  lemma SetStateReleases(c: Ctl, to: AgentState, t: nat)
    requires PendingOk(c)
    ensures var n := SetState(c, to);
      && PendingOk(n) && n.nextToken == c.nextToken
      && Releases(n.log, t) == Releases(c.log, t)
         + (if to.UserConfirmed? && !c.agentState.UserConfirmed? && Holds(c, t) then 1 else 0)
         + (if to.UserRejected? && !c.agentState.UserRejected? && Holds(c, t) && !Declares(c.pending.value.payload.kind) then 1 else 0)
  {
    hide Releases, HasResult;
    if to != c.agentState {
      var d := c.(agentState := to);
      if to.Stopped? || to.Error? {
        ResetReleases(d, t);
        ReleasesOne(AfterReset(d).log, Simple(StateChanged(to)), t);
      } else if d.pending.Some? && (to.UserConfirmed? || to.UserRejected?) {
        var st := if to.UserConfirmed? then Confirmed else Refused;
        var p := Stamped(c.pending.value.payload, st);
        ReleasesOne(c.log, Event(Wire(p), None, c.pending.value.meta, false), t);
        ReleasesOne(Republished(d, st).log, Simple(StateChanged(to)), t);
      } else {
        ReleasesOne(c.log, Simple(StateChanged(to)), t);
      }
    }
  }

  lemma ResetReleases(c: Ctl, t: nat)
    ensures Releases(AfterReset(c).log, t) == Releases(c.log, t)
  {
    hide Releases, HasResult;
    if c.pending.Some? {
      ReleasesOne(c.log, Event(Obs(false), Some(c.pending.value.id), c.pending.value.meta, false), t);
    }
  }

  lemma UserMessageReleases(c: Ctl, t: nat)
    requires PendingOk(c)
    ensures var n := AfterUserMessage(c);
      PendingOk(n) && n.nextToken == c.nextToken && Releases(n.log, t) == Releases(c.log, t)
  {
    hide Releases, SetState;
    ReleasesOne(c.log, Simple(Recall), t);
    SetStateReleases(Add(c, Simple(Recall)).(pending := Some(Pending(Recall, |c.log|, None))), Running, t);
  }

  lemma LoopRecoveryReleases(c: Ctl, option: int, t: nat)
    requires PendingOk(c)
    ensures var n := AfterLoopRecovery(c, option);
      PendingOk(n) && n.nextToken == c.nextToken && Releases(n.log, t) == Releases(c.log, t)
  {
    hide Releases, SetState, AfterUserMessage;
    if c.loopStart.Some? {
      var d := TruncatedTo(c, c.loopStart.value);
      SetStateReleases(c, Stopped, t);
      SetStateReleases(d, Running, t);
      SetStateReleases(d, AwaitingUserInput, t);
      ReleasesOne(SetState(d, AwaitingUserInput).log, Simple(Obs(false)), t);
      ReleasesOne(SetState(d, Running).log, Simple(Obs(false)), t);
      UserMessageReleases(Add(SetState(d, Running), Simple(Obs(false))), t);
    }
  }

  lemma ObservationReleases(c: Ctl, e: Event, t: nat)
    requires PendingOk(c)
    ensures var n := AfterObservation(c, e);
      PendingOk(n) && n.nextToken == c.nextToken && Releases(n.log, t) == Releases(c.log, t)
  {
    hide Releases, SetState;
    var d := c.(pending := None);
    SetStateReleases(d, Running, t);
    SetStateReleases(d, AwaitingUserInput, t);
  }

  lemma HandledReleases(c: Ctl, e: Event, t: nat)
    requires PendingOk(c) && !e.payload.ChangeState?
    ensures var n := Handled(c, e);
      PendingOk(n) && n.nextToken == c.nextToken && Releases(n.log, t) == Releases(c.log, t)
  {
    hide Releases, SetState, AfterUserMessage, AfterLoopRecovery, AfterObservation;
    match e.payload
    case UserMessage => UserMessageReleases(c, t);
    case AgentMessage(_) => SetStateReleases(c, AwaitingUserInput, t);
    case Finish => SetStateReleases(c, Finished, t);
    case Reject => SetStateReleases(c, Rejected, t);
    case LoopRecovery(option) => LoopRecoveryReleases(c, option, t);
    case _ => ObservationReleases(c, e, t);
  }

  lemma ActReleases(cfg: Config, c: Ctl, k: Kind, risk: Risk, meta: Option<nat>, t: nat)
    requires PendingOk(c) && c.agentState.Running? && c.pending.None?
    ensures var n := AfterAct(cfg, c, k, risk, meta);
      && PendingOk(n) && n.nextToken == c.nextToken + 1
      && Releases(n.log, t) == Releases(c.log, t) + if t == c.nextToken && !(Awaits(cfg, k, risk) && Declares(k)) then 1 else 0
  {
    hide Releases, SetState, Awaits;
    var p := Runnable(k, Some(c.nextToken), FirstStatus(cfg, k, risk));
    var d := c.(pending := Some(Pending(p, -1, meta)), nextToken := c.nextToken + 1);
    SetStateReleases(d, AwaitingUserConfirmation, t);
    var e := if Awaits(cfg, k, risk) then SetState(d, AwaitingUserConfirmation) else d;
    ReleasesOne(e.log, Event(Wire(p), None, meta, false), t);
  }

  lemma SteppedReleases(cfg: Config, c: Ctl, d: Decision, t: nat)
    requires PendingOk(c)
    ensures var n := Stepped(cfg, c, d);
      && PendingOk(n) && c.nextToken <= n.nextToken && (n.nextToken > c.nextToken ==> d.Act?)
      && Releases(n.log, t) == Releases(c.log, t)
         + if n.nextToken > c.nextToken == t && !(Awaits(cfg, d.kind, d.risk) && Declares(d.kind)) then 1 else 0
  {
    hide Releases, SetState, AfterAct, Awaits;
    if c.agentState.Running? && c.pending.None? {
      var b := Checked(c, d);
      match d
      case Act(_, k, risk, meta) => ActReleases(cfg, b, k, risk, meta, t);
      case IsStuck(_) => SetStateReleases(b, Error, t);
      case Fails(_) => SetStateReleases(b, Error, t);
      case HitsRateLimit(_) => SetStateReleases(b, RateLimited, t);
      case NoBalance(_) =>
        ReleasesOne(b.log, Simple(Obs(false)), t);
        SetStateReleases(Add(b, Simple(Obs(false))), Paused, t);
      case Malformed(_) => ReleasesOne(b.log, Simple(Obs(false)), t);
      case ContextFull(_) => ReleasesOne(b.log, Simple(Condensation), t);
      case Say(_, p, meta) => ReleasesOne(b.log, Event(p, None, meta, false), t);
    }
  }

  /** One step of the whole releases `t` as often as it confirms it, refuses it in vain or publishes it unasked. */
  lemma StepReleases(cfg: Config, s: St, step: Step, t: nat)
    requires PendingOk(s.ctl) && Enabled(s, step) && (s.reply.Some? ==> IsObservation(s.reply.value.payload))
    ensures PendingOk(Next(cfg, s, step).ctl)
    ensures Releases(Next(cfg, s, step).ctl.log, t) == Releases(s.ctl.log, t)
      + (if Confirms(s, step, t) then 1 else 0) + (if LostRefusal(s, step, t) then 1 else 0)
      + (if Unasked(cfg, s, step, t) then 1 else 0)
  {
    hide Releases, SetState, Stepped, AfterUserMessage, AfterLoopRecovery, AfterObservation, Awaits;
    match step
    case Control(d) =>
      var e := s.ctl.log[s.ctlAt];
      if !e.hidden {
        var c := Remembered(s.ctl, e);
        if e.payload.ChangeState? {
          SetStateReleases(c, e.payload.to, t);
        } else {
          HandledReleases(c, e, t);
          SteppedReleases(cfg, Handled(c, e), d, t);
        }
      }
    case SetDirectly(to) => SetStateReleases(s.ctl, to, t);
    case Execute(_) =>
    case SendReply => ReleasesOne(s.ctl.log, s.reply.value, t);
    case Remember(_, empty) =>
      ReleasesOne(s.ctl.log, Event(if empty then NullObs else Obs(false), Some(s.memAt), None, false), t);
    case Publish(e) => ReleasesOne(s.ctl.log, e, t);
  }

  // ---- The invariant of the whole ----

  predicate Counted(s: St, t: nat)
    requires s.runAt <= |s.ctl.log|
  {
    && CountOf(s.executed, t) == Releases(s.ctl.log[..s.runAt], t)
    && (t >= s.ctl.nextToken ==> Releases(s.ctl.log, t) == 0)
  }

  ghost predicate Inv(s: St) {
    && s.ctlAt <= |s.ctl.log| && s.runAt <= |s.ctl.log| && s.memAt <= |s.ctl.log|
    && PendingOk(s.ctl) && OnLog(s.ctl)
    && (s.reply.Some? ==> IsObservation(s.reply.value.payload))
    && forall t: nat :: Counted(s, t)
  }

  lemma StepGrows(cfg: Config, s: St, step: Step)
    requires Inv(s) && Enabled(s, step)
    ensures var n := Next(cfg, s, step); s.ctl.log <= n.ctl.log && OnLog(n.ctl)
  {
    hide SetState, Stepped, Handled;
    match step
    case Control(d) =>
      var e := s.ctl.log[s.ctlAt];
      var c := Remembered(s.ctl, e);
      HandledKeeps(c, e);
      SteppedKeeps(cfg, Handled(c, e), d);
    case SetDirectly(to) => SetStateKeeps(s.ctl, to);
    case _ =>
  }

  lemma StepTokens(cfg: Config, s: St, step: Step)
    requires Inv(s) && Enabled(s, step)
    ensures s.ctl.nextToken <= Next(cfg, s, step).ctl.nextToken <= s.ctl.nextToken + 1
    ensures Next(cfg, s, step).ctl.nextToken > s.ctl.nextToken ==>
      && step.Control? && step.d.Act?
      && Holds(Next(cfg, s, step).ctl, s.ctl.nextToken) && Next(cfg, s, step).ctl.pending.value.payload.kind == step.d.kind
  {
    hide SetState, Handled, Awaits;
    match step
    case Control(d) =>
      var e := s.ctl.log[s.ctlAt];
      var c := Remembered(s.ctl, e);
      if e.payload.ChangeState? {
        SetStateReleases(c, e.payload.to, 0);
        assert Handled(c, e) == SetState(c, e.payload.to) by { HandledChange(c, e); }
      } else {
        HandledReleases(c, e, 0);
      }
      KeepsToken(Handled(c, e), cfg, d);
    case SetDirectly(to) => SetStateReleases(s.ctl, to, 0);
    case _ =>
  }

  lemma HandledChange(c: Ctl, e: Event)
    requires e.payload.ChangeState?
    ensures Handled(c, e) == SetState(c, e.payload.to)
  {
  }

  lemma KeepsToken(c: Ctl, cfg: Config, d: Decision)
    ensures c.nextToken <= Stepped(cfg, c, d).nextToken <= c.nextToken + 1
    ensures Stepped(cfg, c, d).nextToken > c.nextToken ==>
      && d.Act? && c.pending.None?
      && Holds(Stepped(cfg, c, d), c.nextToken) && Stepped(cfg, c, d).pending.value.payload.kind == d.kind
  {
    hide HasResult, Awaits;
  }

  lemma CountedKept(cfg: Config, s: St, step: Step, t: nat)
    requires Inv(s) && Enabled(s, step) && Next(cfg, s, step).runAt <= |Next(cfg, s, step).ctl.log|
    ensures Counted(Next(cfg, s, step), t)
  {
    var n := Next(cfg, s, step);
    StepGrows(cfg, s, step);
    StepReleases(cfg, s, step, t);
    StepTokens(cfg, s, step);
    assert Counted(s, t);
    if step.Execute? {
      var e := s.ctl.log[s.runAt];
      assert s.ctl.log[..s.runAt + 1] == s.ctl.log[..s.runAt] + [e];
      ReleasesOne(s.ctl.log[..s.runAt], e, t);
      if Runs(e.payload) { CountOne(s.executed, e.payload.token, t); }
    } else {
      SameElsewhere(cfg, s, step);
      assert n.ctl.log[..n.runAt] == s.ctl.log[..s.runAt];
    }
  }

  lemma SameElsewhere(cfg: Config, s: St, step: Step)
    requires Enabled(s, step) && !step.Execute?
    ensures Next(cfg, s, step).runAt == s.runAt && Next(cfg, s, step).executed == s.executed
  {
    hide OnEvent, SetState;
  }

  lemma StepKeepsInv(cfg: Config, s: St, step: Step)
    requires Inv(s) && Enabled(s, step)
    ensures Inv(Next(cfg, s, step))
  {
    hide OnEvent, SetState, Counted, OnLog, PendingOk;
    var n := Next(cfg, s, step);
    StepGrows(cfg, s, step);
    StepReleases(cfg, s, step, 0);
    assert |s.ctl.log| <= |n.ctl.log|;
    forall t: nat ensures Counted(n, t) { CountedKept(cfg, s, step, t); }
  }

  lemma {:induction false} RunKeepsInv(cfg: Config, s: St, steps: seq<Step>)
    requires Inv(s) && Possible(cfg, s, steps)
    ensures Inv(RunFrom(cfg, s, steps))
    decreases |steps|
  {
    hide Inv, Next, Enabled;
    if steps != [] {
      StepKeepsInv(cfg, s, steps[0]);
      RunKeepsInv(cfg, Next(cfg, s, steps[0]), steps[1..]);
    }
  }

  lemma InitialInv()
    ensures Inv(INITIAL)
  {
    assert forall t: nat :: Counted(INITIAL, t);
  }

  /** In every state a run can reach the pending action is the event published under its id, and the
      executions are those the events seen by the runtime call for. */
  lemma Reachable(cfg: Config, steps: seq<Step>)
    requires Possible(cfg, INITIAL, steps)
    ensures Inv(RunFrom(cfg, INITIAL, steps))
  {
    InitialInv();
    RunKeepsInv(cfg, INITIAL, steps);
  }

  // ---- What is executed ----

  lemma {:induction false} RunReleases(cfg: Config, s: St, steps: seq<Step>, t: nat)
    requires Inv(s) && Possible(cfg, s, steps)
    ensures Releases(RunFrom(cfg, s, steps).ctl.log, t) == Releases(s.ctl.log, t)
      + ConfirmCount(cfg, s, steps, t) + LostRefusalCount(cfg, s, steps, t) + UnaskedCount(cfg, s, steps, t)
    decreases |steps|
  {
    if steps != [] {
      StepReleases(cfg, s, steps[0], t);
      StepKeepsInv(cfg, s, steps[0]);
      hide Inv, Next, Enabled, Confirms, LostRefusal, Unasked, Releases;
      RunReleases(cfg, Next(cfg, s, steps[0]), steps[1..], t);
    }
  }

  lemma {:induction false} PrefixReleases(log: seq<Event>, n: nat, t: nat)
    requires n <= |log|
    ensures Releases(log[..n], t) <= Releases(log, t)
  {
    if n < |log| {
      assert log[..|log| - 1][..n] == log[..n];
      PrefixReleases(log[..|log| - 1], n, t);
    } else {
      assert log[..n] == log;
    }
  }

  /** In every run, the runtime executes an action at most as often as the user confirmed it while it
      was pending, refused it in vain, or the agent published it without waiting; and exactly that
      often once the runtime has seen the whole stream. */
  lemma ExecutedExactly(cfg: Config, steps: seq<Step>, t: nat)
    requires Possible(cfg, INITIAL, steps)
    ensures var s := RunFrom(cfg, INITIAL, steps);
      var allowed := ConfirmCount(cfg, INITIAL, steps, t) + LostRefusalCount(cfg, INITIAL, steps, t)
                     + UnaskedCount(cfg, INITIAL, steps, t);
      && CountOf(s.executed, t) <= allowed
      && (s.runAt == |s.ctl.log| ==> CountOf(s.executed, t) == allowed)
  {
    var s := RunFrom(cfg, INITIAL, steps);
    Reachable(cfg, steps);
    InitialInv();
    RunReleases(cfg, INITIAL, steps, t);
    assert Counted(s, t);
    PrefixReleases(s.ctl.log, s.runAt, t);
    assert s.ctl.log[..|s.ctl.log|] == s.ctl.log;
    hide Possible, RunFrom, Inv, ConfirmCount, LostRefusalCount, UnaskedCount;
  }

  /** An action is published without waiting at most once. */
  lemma {:induction false} UnaskedAtMostOnce(cfg: Config, s: St, steps: seq<Step>, t: nat)
    requires Inv(s) && Possible(cfg, s, steps)
    ensures UnaskedCount(cfg, s, steps, t) <= if s.ctl.nextToken <= t then 1 else 0
    decreases |steps|
  {
    if steps != [] {
      StepTokens(cfg, s, steps[0]);
      StepKeepsInv(cfg, s, steps[0]);
      hide Inv, Next, Enabled;
      UnaskedAtMostOnce(cfg, Next(cfg, s, steps[0]), steps[1..], t);
    }
  }

  predicate KindIs(c: Ctl, t: nat, k: Kind) {
    Holds(c, t) ==> c.pending.value.payload.kind == k
  }

  lemma SetStateKind(c: Ctl, to: AgentState, t: nat, k: Kind)
    requires KindIs(c, t, k)
    ensures KindIs(SetState(c, to), t, k)
  {
    hide HasResult;
  }

  lemma StepKind(cfg: Config, s: St, step: Step, t: nat, k: Kind)
    requires Inv(s) && Enabled(s, step) && KindIs(s.ctl, t, k) && t < s.ctl.nextToken
    ensures KindIs(Next(cfg, s, step).ctl, t, k)
  {
    hide SetState, Stepped, Handled, Awaits, Counted;
    match step
    case Control(d) =>
      var e := s.ctl.log[s.ctlAt];
      var c := Remembered(s.ctl, e);
      HandledKind(c, e, t, k);
      HandledTokens(s.ctl, e);
      SteppedKind(cfg, Handled(c, e), d, t, k);
    case SetDirectly(to) => SetStateKind(s.ctl, to, t, k);
    case _ =>
  }

  lemma HandledTokens(c: Ctl, e: Event)
    requires PendingOk(c)
    ensures Handled(Remembered(c, e), e).nextToken == c.nextToken
  {
    hide SetState;
    var d := Remembered(c, e);
    if e.payload.ChangeState? { SetStateReleases(d, e.payload.to, 0); } else { HandledReleases(d, e, 0); }
  }

  lemma HandledKind(c: Ctl, e: Event, t: nat, k: Kind)
    requires KindIs(c, t, k)
    ensures KindIs(Handled(c, e), t, k)
  {
    hide SetState;
    if e.payload.ChangeState? { SetStateKind(c, e.payload.to, t, k); }
    SetStateKind(c, AwaitingUserInput, t, k);
    SetStateKind(c, Finished, t, k);
    SetStateKind(c, Rejected, t, k);
    SetStateKind(c, Stopped, t, k);
    SetStateKind(c.(pending := None), Running, t, k);
    SetStateKind(c.(pending := None), AwaitingUserInput, t, k);
    UserMessageKind(c, t, k);
    if e.payload.LoopRecovery? && c.loopStart.Some? {
      var d := TruncatedTo(c, c.loopStart.value);
      SetStateKind(d, AwaitingUserInput, t, k);
      UserMessageKind(Add(SetState(d, Running), Simple(Obs(false))), t, k);
      hide AfterUserMessage;
    }
  }

  lemma UserMessageKind(c: Ctl, t: nat, k: Kind)
    ensures KindIs(AfterUserMessage(c), t, k)
  {
    hide SetState;
    SetStateKind(Add(c, Simple(Recall)).(pending := Some(Pending(Recall, |c.log|, None))), Running, t, k);
  }

  lemma SteppedKind(cfg: Config, c: Ctl, d: Decision, t: nat, k: Kind)
    requires KindIs(c, t, k) && t < c.nextToken
    ensures KindIs(Stepped(cfg, c, d), t, k)
  {
    hide SetState, Awaits;
    var b := Checked(c, d);
    SetStateKind(b, Error, t, k);
    SetStateKind(b, RateLimited, t, k);
    SetStateKind(Add(b, Simple(Obs(false))), Paused, t, k);
  }

  lemma {:induction false} NoLostRefusals(cfg: Config, s: St, steps: seq<Step>, t: nat, k: Kind)
    requires Inv(s) && Possible(cfg, s, steps) && KindIs(s.ctl, t, k) && t < s.ctl.nextToken && Declares(k)
    ensures LostRefusalCount(cfg, s, steps, t) == 0
    decreases |steps|
  {
    if steps != [] {
      StepTokens(cfg, s, steps[0]);
      StepKeepsInv(cfg, s, steps[0]);
      StepKind(cfg, s, steps[0], t, k);
      assert !LostRefusal(s, steps[0], t);
      hide Inv, Next, Enabled, KindIs, LostRefusal;
      NoLostRefusals(cfg, Next(cfg, s, steps[0]), steps[1..], t, k);
    }
  }

  /** A shell command or notebook cell the agent decides on when the settings ask for confirmation is
      executed at most as often as the user confirms it while it is pending. */
  lemma ConfirmedBeforeExecuted(cfg: Config, s: St, step: Step, after: seq<Step>, t: nat)
    requires Inv(s) && Enabled(s, step) && Possible(cfg, Next(cfg, s, step), after)
    requires Decides(cfg, s, step, t) && step.Control? && step.d.Act? && (step.d.kind.CmdRun? || step.d.kind.IPython?)
    requires cfg.stateConfirmation
    requires cfg.cliMode || (cfg.confirmationMode && (step.d.risk.High? || (step.d.risk.Unknown? && !cfg.analyzer)))
    ensures CountOf(RunFrom(cfg, Next(cfg, s, step), after).executed, t) <= ConfirmCount(cfg, Next(cfg, s, step), after, t)
  {
    var n := Next(cfg, s, step);
    assert Awaits(cfg, step.d.kind, step.d.risk);
    StepKeepsInv(cfg, s, step);
    StepTokens(cfg, s, step);
    StepReleases(cfg, s, step, t);
    assert Counted(s, t) && Releases(n.ctl.log, t) == 0;
    assert KindIs(n.ctl, t, step.d.kind);
    hide Next, Enabled, Counted, Releases, KindIs, OnLog, PendingOk, Awaits;
    NoLostRefusals(cfg, n, after, t, step.d.kind);
    UnaskedAtMostOnce(cfg, n, after, t);
    RunReleases(cfg, n, after, t);
    RunKeepsInv(cfg, n, after);
    var e := RunFrom(cfg, n, after);
    hide Possible, RunFrom, ConfirmCount, LostRefusalCount, UnaskedCount;
    ExecutedWithin(e, t);
  }

  lemma ExecutedWithin(s: St, t: nat)
    requires Inv(s)
    ensures CountOf(s.executed, t) <= Releases(s.ctl.log, t)
  {
    assert Counted(s, t);
    PrefixReleases(s.ctl.log, s.runAt, t);
  }

  /** An action that is to wait is held back only if it is a shell command or a notebook cell: the other
      kinds are published in a form the runtime executes. */
  lemma HeldBackExactly(cfg: Config, c: Ctl, d: Decision)
    requires c.agentState.Running? && c.pending.None? && d.Act? && cfg.stateConfirmation
    requires d.kind.CmdRun? || d.kind.IPython? || d.kind.BrowseInteractive? || d.kind.FileEdit? || d.kind.FileRead?
    requires cfg.cliMode || (cfg.confirmationMode && (d.risk.High? || (d.risk.Unknown? && !cfg.analyzer)))
    ensures var n := Stepped(cfg, c, d);
      && n.agentState.AwaitingUserConfirmation? && n.log != []
      && n.log[|n.log| - 1].payload.Runnable? && n.log[|n.log| - 1].payload.token == Some(c.nextToken)
      && (Runs(n.log[|n.log| - 1].payload) <==> !(d.kind.CmdRun? || d.kind.IPython?))
  {
  }

  /** An action is published without waiting exactly if the settings do not ask, or it is neither a shell
      command nor a notebook cell. */
  lemma UnaskedExactly(cfg: Config, s: St, step: Step, t: nat)
    requires Inv(s) && Enabled(s, step) && Decides(cfg, s, step, t)
    ensures step.Control? && step.d.Act?
    ensures Unasked(cfg, s, step, t) <==>
      || !cfg.stateConfirmation
      || !(cfg.cliMode || (cfg.confirmationMode && (step.d.risk.High? || (step.d.risk.Unknown? && !cfg.analyzer))))
      || !(step.d.kind.CmdRun? || step.d.kind.IPython?)
  {
    hide Next, Enabled, Inv;
    StepTokens(cfg, s, step);
  }

  const EDIT_CONFIG := Config(true, true, false, false)
  const EDIT_DECIDED := [SetDirectly(Running), Publish(Simple(Obs(false))), Control(Fails(true)),
                         Control(Act(true, FileEdit, High, None))]
  const EDIT_LOG := [Simple(StateChanged(Running)), Simple(Obs(false)), Simple(StateChanged(AwaitingUserConfirmation)),
                     Simple(Runnable(FileEdit, Some(0), None))]
  const EDIT_WAITS := Ctl(AwaitingUserConfirmation,
                          Some(Pending(Runnable(FileEdit, Some(0), Some(AwaitingConfirmation)), 3, None)),
                          [Simple(Obs(false))], None, EDIT_LOG, 1)

  lemma AgentDecidesToEdit()
    ensures var s := St(Ctl(Running, None, [], None, EDIT_LOG[..2], 0), 1, 0, 0, None, []);
      Enabled(s, Control(Act(true, FileEdit, High, None)))
      && Next(EDIT_CONFIG, s, Control(Act(true, FileEdit, High, None))) == St(EDIT_WAITS, 2, 0, 0, None, [])
  {
    assert EDIT_LOG[..2] + [EDIT_LOG[2]] + [EDIT_LOG[3]] == EDIT_LOG;
  }

  lemma EditIsDecided()
    ensures Possible(EDIT_CONFIG, INITIAL, EDIT_DECIDED)
    ensures RunFrom(EDIT_CONFIG, INITIAL, EDIT_DECIDED) == St(EDIT_WAITS, 2, 0, 0, None, [])
  {
    var s1 := Next(EDIT_CONFIG, INITIAL, SetDirectly(Running));
    var s2 := Next(EDIT_CONFIG, s1, Publish(Simple(Obs(false))));
    var s3 := Next(EDIT_CONFIG, s2, Control(Fails(true)));
    assert s3 == St(Ctl(Running, None, [], None, EDIT_LOG[..2], 0), 1, 0, 0, None, []);
    hide Next, Enabled, EDIT_WAITS;
    var s4 := St(EDIT_WAITS, 2, 0, 0, None, []);
    AgentDecidesToEdit();
    OneMore(EDIT_CONFIG, s3, s4, Control(Act(true, FileEdit, High, None)), [], s4);
    OneMore(EDIT_CONFIG, s2, s3, Control(Fails(true)), EDIT_DECIDED[3..], s4);
    OneMore(EDIT_CONFIG, s1, s2, Publish(Simple(Obs(false))), EDIT_DECIDED[2..], s4);
    OneMore(EDIT_CONFIG, INITIAL, s1, SetDirectly(Running), EDIT_DECIDED[1..], s4);
    assert [SetDirectly(Running)] + EDIT_DECIDED[1..] == EDIT_DECIDED;
  }

  function Executions(n: nat): (r: seq<Step>)
    ensures |r| == n
  {
    seq(n, _ => Execute(true))
  }

  lemma {:induction false} RuntimeCatchesUp(k: nat)
    requires k <= 4
    ensures var s := St(EDIT_WAITS, 2, k, 0, None, []);
      var executed := if k < 4 then [Some(0)] else [];
      && Possible(EDIT_CONFIG, s, Executions(4 - k))
      && RunFrom(EDIT_CONFIG, s, Executions(4 - k))
         == St(EDIT_WAITS, 2, 4, 0, if k < 4 then Some(Event(Obs(false), Some(3), None, false)) else None, executed)
    decreases 4 - k
  {
    var s := St(EDIT_WAITS, 2, k, 0, None, []);
    if k < 4 {
      assert Executions(4 - k) == [Execute(true)] + Executions(3 - k);
      var n := Next(EDIT_CONFIG, s, Execute(true));
      if k < 3 {
        RuntimeCatchesUp(k + 1);
        OneMore(EDIT_CONFIG, s, n, Execute(true), Executions(3 - k), RunFrom(EDIT_CONFIG, n, Executions(3 - k)));
      } else {
        assert Executions(0) == [];
        OneMore(EDIT_CONFIG, s, n, Execute(true), [], n);
      }
    }
  }

  /** A run in which a file edit is executed while the controller still waits for the user's answer. */
  lemma EditRunsWhileWaiting()
    ensures var steps := EDIT_DECIDED + Executions(4);
      && Possible(EDIT_CONFIG, INITIAL, steps)
      && var s := RunFrom(EDIT_CONFIG, INITIAL, steps);
         s.executed == [Some(0)] && s.ctl.agentState.AwaitingUserConfirmation? && Holds(s.ctl, 0)
  {
    EditIsDecided();
    RuntimeCatchesUp(0);
    OneAfterTheOther(EDIT_CONFIG, INITIAL, EDIT_DECIDED, Executions(4));
  }

  lemma {:induction false} OneAfterTheOther(cfg: Config, s: St, a: seq<Step>, b: seq<Step>)
    requires Possible(cfg, s, a) && Possible(cfg, RunFrom(cfg, s, a), b)
    ensures Possible(cfg, s, a + b) && RunFrom(cfg, s, a + b) == RunFrom(cfg, RunFrom(cfg, s, a), b)
    decreases |a|
  {
    hide Next, Enabled;
    if a == [] {
      assert a + b == b;
    } else {
      assert (a + b)[1..] == a[1..] + b;
      OneAfterTheOther(cfg, Next(cfg, s, a[0]), a[1..], b);
    }
  }

  lemma OneMore(cfg: Config, s: St, n: St, step: Step, rest: seq<Step>, last: St)
    requires Enabled(s, step) && n == Next(cfg, s, step)
    requires Possible(cfg, n, rest) && RunFrom(cfg, n, rest) == last
    ensures Possible(cfg, s, [step] + rest) && RunFrom(cfg, s, [step] + rest) == last
  {
    assert ([step] + rest)[1..] == rest;
  }

  // ---- When the controller lets a pending action go ----

  /** The event that is being handled answers the pending action. */
  predicate AnsweredBy(s: St, step: Step)
    requires Enabled(s, step)
  {
    step.Control? && var e := s.ctl.log[s.ctlAt];
    !e.hidden && IsObservation(e.payload) && Answers(s.ctl, e) && !s.ctl.agentState.AwaitingUserConfirmation?
  }

  /** A user message, also one the loop recovery repeats, puts a recall in its place. */
  predicate Replaced(cfg: Config, s: St, step: Step)
    requires Enabled(s, step)
  {
    step.Control? && var e := s.ctl.log[s.ctlAt];
    && !e.hidden && (e.payload.UserMessage? || e.payload == LoopRecovery(2))
    && Next(cfg, s, step).ctl.pending.Some? && Next(cfg, s, step).ctl.pending.value.payload.Recall?
  }

  /** A reset, and an observation with the metadata `meta` is in the history or newly published. */
  predicate ResetWith(cfg: Config, s: St, step: Step, meta: Option<nat>)
    requires Enabled(s, step)
  {
    var n := Next(cfg, s, step).ctl;
    && (n.agentState.Stopped? || n.agentState.Error?) && n.pending.None?
    && (HasResult(n.history, meta)
        || (exists i | |s.ctl.log| <= i < |n.log| :: IsObservation(n.log[i].payload) && n.log[i].meta == meta))
  }

  predicate LetsGo(cfg: Config, s: St, step: Step, t: nat)
    requires Enabled(s, step)
  {
    Holds(s.ctl, t) && (AnsweredBy(s, step) || Replaced(cfg, s, step) || ResetWith(cfg, s, step, s.ctl.pending.value.meta))
  }

  lemma SetStateHolds(c: Ctl, to: AgentState, t: nat)
    requires Holds(c, t)
    ensures var n := SetState(c, to);
      || Holds(n, t)
      || ((to.Stopped? || to.Error?) && n.agentState == to && n.pending.None? && n.history == c.history
          && (HasResult(c.history, c.pending.value.meta)
              || (|n.log| > |c.log| && IsObservation(n.log[|c.log|].payload) && n.log[|c.log|].meta == c.pending.value.meta)))
  {
    hide HasResult;
  }

  lemma UserMessageRecalls(c: Ctl)
    ensures AfterUserMessage(c).pending.Some? && AfterUserMessage(c).pending.value.payload.Recall?
  {
    hide HasResult;
  }

  /** The pending action is never just dropped. */
  lemma PendingLeaves(cfg: Config, s: St, step: Step, t: nat)
    requires Inv(s) && Enabled(s, step) && Holds(s.ctl, t) && !Holds(Next(cfg, s, step).ctl, t)
    ensures LetsGo(cfg, s, step, t)
  {
    hide SetState, Stepped, Handled, HasResult, Counted, PendingOk, OnLog;
    match step
    case Control(d) =>
      var e := s.ctl.log[s.ctlAt];
      if !AnsweredBy(s, step) {
        var c := Remembered(s.ctl, e);
        HandledLeaves(c, e, t);
        StillThere(cfg, Handled(c, e), d);
        NoStep(Handled(c, e), e);
      }
    case SetDirectly(to) => SetStateHolds(s.ctl, to, t);
    case _ =>
  }

  lemma StillThere(cfg: Config, c: Ctl, d: Decision)
    ensures c.pending.Some? ==> Stepped(cfg, c, d) == c
  {
    hide SetState;
  }

  lemma NoStep(c: Ctl, e: Event)
    ensures e.payload.ChangeState? || e.payload.LoopRecovery? ==> !ShouldStep(c, e)
  {
  }

  lemma HandledLeaves(c: Ctl, e: Event, t: nat)
    requires Holds(c, t)
    requires !(IsObservation(e.payload) && Answers(c, e) && !c.agentState.AwaitingUserConfirmation?)
    ensures var n := Handled(c, e);
      || Holds(n, t)
      || ((e.payload.UserMessage? || e.payload == LoopRecovery(2)) && n.pending.Some? && n.pending.value.payload.Recall?)
      || ((e.payload.ChangeState? || e.payload.LoopRecovery?)
          && (n.agentState.Stopped? || n.agentState.Error?) && n.pending.None? && n.history == c.history
          && (HasResult(c.history, c.pending.value.meta)
              || (|n.log| > |c.log| && IsObservation(n.log[|c.log|].payload) && n.log[|c.log|].meta == c.pending.value.meta)))
  {
    hide SetState, AfterUserMessage, HasResult;
    if e.payload.ChangeState? { SetStateHolds(c, e.payload.to, t); }
    SetStateHolds(c, AwaitingUserInput, t);
    SetStateHolds(c, Finished, t);
    SetStateHolds(c, Rejected, t);
    SetStateHolds(c, Stopped, t);
    UserMessageRecalls(c);
    if e.payload.LoopRecovery? && c.loopStart.Some? {
      var d := TruncatedTo(c, c.loopStart.value);
      SetStateHolds(d, AwaitingUserInput, t);
      UserMessageRecalls(Add(SetState(d, Running), Simple(Obs(false))));
    }
  }

  /** Somewhere in the run the controller lets `t` go. */
  predicate LetGoIn(cfg: Config, s: St, steps: seq<Step>, t: nat)
    requires Possible(cfg, s, steps)
    decreases |steps|
  {
    steps != [] && (LetsGo(cfg, s, steps[0], t) || LetGoIn(cfg, Next(cfg, s, steps[0]), steps[1..], t))
  }

  /** While an action is pending the agent decides on no other: before it does, an answer was handled,
      a user message replaced the action, or a reset left it with an observation. */
  lemma {:induction false} OneAtATime(cfg: Config, s: St, steps: seq<Step>, t: nat)
    requires Inv(s) && Possible(cfg, s, steps) && Holds(s.ctl, t)
    requires RunFrom(cfg, s, steps).ctl.nextToken > s.ctl.nextToken
    ensures LetGoIn(cfg, s, steps, t)
    decreases |steps|
  {
    if steps != [] {
      var n := Next(cfg, s, steps[0]);
      StepKeepsInv(cfg, s, steps[0]);
      if Holds(n.ctl, t) {
        HeldMeansNoDecision(cfg, s, steps[0], t);
        hide Inv, Next, Enabled, LetsGo, Holds;
        OneAtATime(cfg, n, steps[1..], t);
      } else {
        PendingLeaves(cfg, s, steps[0], t);
      }
    }
  }

  lemma HeldMeansNoDecision(cfg: Config, s: St, step: Step, t: nat)
    requires Inv(s) && Enabled(s, step) && Holds(s.ctl, t) && Holds(Next(cfg, s, step).ctl, t)
    ensures Next(cfg, s, step).ctl.nextToken == s.ctl.nextToken
  {
    StepTokens(cfg, s, step);
    assert t < s.ctl.nextToken;
  }

  // ---- Recovery by an analysis of an earlier history ----

  /** The last analysis put the start of the loop at `p`, and the history before it is `front`. */
  predicate FrontIs(c: Ctl, p: nat, front: seq<Event>) {
    c.loopStart == Some(p) && p <= |c.history| && c.history[..p] == front
  }

  /** The analysis stays the same one in every state of the run. */
  predicate SameAnalysis(cfg: Config, s: St, steps: seq<Step>, p: nat)
    requires Possible(cfg, s, steps)
    decreases |steps|
  {
    s.ctl.loopStart == Some(p) && (steps == [] || SameAnalysis(cfg, Next(cfg, s, steps[0]), steps[1..], p))
  }

  lemma EventKeepsFront(cfg: Config, c: Ctl, e: Event, d: Decision, p: nat, front: seq<Event>)
    requires OnLog(c) && FrontIs(c, p, front) && OnEvent(cfg, c, e, d).loopStart == Some(p)
    ensures FrontIs(OnEvent(cfg, c, e, d), p, front)
    ensures !e.hidden && (e.payload == LoopRecovery(1) || e.payload == LoopRecovery(2)) ==> OnEvent(cfg, c, e, d).history == front
  {
    hide Handled, Stepped, Keeps;
    var r := Remembered(c, e);
    HandledKeeps(r, e);
    ConsistentKeeps(r, Handled(r, e));
    SteppedKeeps(cfg, Handled(r, e), d);
  }

  lemma ConsistentKeeps(c: Ctl, n: Ctl)
    requires OnLog(c) && Keeps(c, n)
    ensures OnLog(n)
  {
  }

  lemma StepKeepsFront(cfg: Config, s: St, step: Step, p: nat, front: seq<Event>)
    requires Inv(s) && Enabled(s, step) && FrontIs(s.ctl, p, front) && Next(cfg, s, step).ctl.loopStart == Some(p)
    ensures FrontIs(Next(cfg, s, step).ctl, p, front)
  {
    hide OnEvent, SetState, OnLog, PendingOk, Counted;
    match step
    case Control(d) => EventKeepsFront(cfg, s.ctl, s.ctl.log[s.ctlAt], d, p, front);
    case SetDirectly(to) => SetStateKeeps(s.ctl, to);
    case _ =>
  }

  lemma {:induction false} RunKeepsFront(cfg: Config, s: St, steps: seq<Step>, p: nat, front: seq<Event>)
    requires Inv(s) && Possible(cfg, s, steps) && FrontIs(s.ctl, p, front) && SameAnalysis(cfg, s, steps, p)
    ensures FrontIs(RunFrom(cfg, s, steps).ctl, p, front)
    decreases |steps|
  {
    if steps != [] {
      StepKeepsInv(cfg, s, steps[0]);
      assert SameAnalysis(cfg, Next(cfg, s, steps[0]), steps[1..], p);
      StepKeepsFront(cfg, s, steps[0], p, front);
      hide Inv, Next, Enabled, FrontIs;
      RunKeepsFront(cfg, Next(cfg, s, steps[0]), steps[1..], p, front);
    }
  }

  /** As long as no new analysis is made, every recovery cuts the history back to what stood before
      the loop when it was analysed: all that has been remembered since is dropped, an instruction
      given after an earlier recovery included. */
  lemma StaleRecoveryDropsNews(cfg: Config, s: St, steps: seq<Step>, d: Decision, p: nat)
    requires Inv(s) && Possible(cfg, s, steps) && p <= |s.ctl.history| && SameAnalysis(cfg, s, steps, p)
    requires var t := RunFrom(cfg, s, steps);
      && Enabled(t, Control(d)) && !t.ctl.log[t.ctlAt].hidden
      && (t.ctl.log[t.ctlAt].payload == LoopRecovery(1) || t.ctl.log[t.ctlAt].payload == LoopRecovery(2))
    ensures var t := RunFrom(cfg, s, steps);
      s.ctl.history[..p] <= t.ctl.history && Next(cfg, t, Control(d)).ctl.history == s.ctl.history[..p]
  {
    var t, front := RunFrom(cfg, s, steps), s.ctl.history[..p];
    RunKeepsInv(cfg, s, steps);
    RunKeepsFront(cfg, s, steps, p, front);
    hide Possible, RunFrom, SameAnalysis, PendingOk, Counted;
    RecoveryStays(cfg, t.ctl, t.ctl.log[t.ctlAt], d);
    EventKeepsFront(cfg, t.ctl, t.ctl.log[t.ctlAt], d, p, front);
  }

  /** The agent is not asked on a recovery event, so the analysis stays. */
  lemma RecoveryStays(cfg: Config, c: Ctl, e: Event, d: Decision)
    requires OnLog(c) && e.payload.LoopRecovery?
    ensures OnEvent(cfg, c, e, d).loopStart == c.loopStart
  {
    hide Handled;
    HandledKeeps(Remembered(c, e), e);
  }
}
