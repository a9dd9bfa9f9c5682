/** The agent controller: the pending action, confirmation by the user, and the reset, as it handles
    the events of the stream one at a time. */
module Controller {
  import opened Wrappers
  import Stuck

  datatype AgentState =
    | Loading | Running | AwaitingUserInput | Paused | Stopped | Finished | Rejected | Error
    | AwaitingUserConfirmation | UserConfirmed | UserRejected | RateLimited

  datatype Status = Confirmed | Refused | AwaitingConfirmation

  datatype Kind = CmdRun | IPython | BrowseInteractive | FileEdit | FileRead | BrowseUrl | Mcp

  /** The kinds whose class declares a confirmation state; on the others it is only an attribute of
      the object, and the dictionary that the stream stores and delivers does not carry it. */
  predicate Declares(k: Kind) {
    k.CmdRun? || k.IPython?
  }

  predicate Confirmable(k: Kind) {
    k.CmdRun? || k.IPython? || k.BrowseInteractive? || k.FileEdit? || k.FileRead?
  }

  /** `token` numbers the runnable actions the agent decided on; a user's own has none.
      `Condensation` covers its request; `Thought` the actions a runtime answers without running anything. */
  datatype Payload =
    | UserMessage
    | AgentMessage(waits: bool)
    | ChangeState(to: AgentState)
    | Runnable(kind: Kind, token: Option<nat>, status: Option<Status>)
    | Recall
    | Finish
    | Reject
    | LoopRecovery(option: int)
    | Condensation
    | Thought
    | OtherAction
    | NullAction
    | Obs(rejection: bool)
    | NullObs
    | StateChanged(now: AgentState)

  predicate IsObservation(p: Payload) {
    p.Obs? || p.NullObs? || p.StateChanged?
  }

  /** An event of the stream; its id is its place there.  `meta` stands for its tool-call metadata. */
  datatype Event = Event(payload: Payload, cause: Option<int>, meta: Option<nat>, hidden: bool)

  function Simple(p: Payload): Event {
    Event(p, None, None, false)
  }

  /** The action as the controller holds it, with the id it was last published under. */
  datatype Pending = Pending(payload: Payload, id: int, meta: Option<nat>)

  datatype Ctl = Ctl(agentState: AgentState, pending: Option<Pending>, history: seq<Event>, loopStart: Option<nat>,
                     log: seq<Event>, nextToken: nat)

  datatype Risk = Unknown | Low | Medium | High

  datatype Config = Config(stateConfirmation: bool, confirmationMode: bool, cliMode: bool, analyzer: bool)

  /** What comes of a step.  Either the agent is found to be stuck; or not, and then the last analysis
      may be dropped, and the agent is asked for its next action.  `risk` is the one left by the
      security analyzer. */
  datatype Decision =
    | IsStuck(loopStart: nat)
    | Fails(clears: bool)
    | HitsRateLimit(clears: bool)
    | NoBalance(clears: bool)
    | Malformed(clears: bool)
    | ContextFull(clears: bool)
    | Act(clears: bool, kind: Kind, risk: Risk, meta: Option<nat>)
    | Say(clears: bool, payload: Payload, meta: Option<nat>)

  /** The other actions an agent can decide on, except the empty one, which is not published. */
  predicate Sayable(p: Payload) {
    p.AgentMessage? || p.Finish? || p.Reject? || p.Condensation? || p.Thought? || p.OtherAction? || p.Recall?
  }

  predicate Awaits(cfg: Config, k: Kind, risk: Risk) {
    cfg.stateConfirmation && Confirmable(k)
    && (cfg.cliMode || ((risk.High? || (risk.Unknown? && !cfg.analyzer)) && cfg.confirmationMode))
  }

  /** What the stream delivers of an action. */
  function Wire(p: Payload): Payload {
    if p.Runnable? && !Declares(p.kind) then p.(status := None) else p
  }

  function Add(c: Ctl, e: Event): Ctl {
    c.(log := c.log + [e])
  }

  // ---- The transitions ----

  predicate HasResult(history: seq<Event>, meta: Option<nat>) {
    exists i | 0 <= i < |history| :: IsObservation(history[i].payload) && history[i].meta == meta
  }

  function AfterReset(c: Ctl): Ctl {
    (if c.pending.Some? && !HasResult(c.history, c.pending.value.meta) then
       Add(c, Event(Obs(false), Some(c.pending.value.id), c.pending.value.meta, false))
     else c).(pending := None)
  }

  function Stamped(p: Payload, status: Status): Payload {
    if p.Runnable? then p.(status := Some(status)) else p
  }

  /** The pending action is published once more, under a new id. */
  function Republished(c: Ctl, status: Status): Ctl
    requires c.pending.Some?
  {
    var p := Stamped(c.pending.value.payload, status);
    Add(c, Event(Wire(p), None, c.pending.value.meta, false)).(pending := Some(Pending(p, |c.log|, c.pending.value.meta)))
  }

  function SetState(c: Ctl, to: AgentState): Ctl {
    if to == c.agentState then c
    else
      var d := c.(agentState := to);
      var e :=
        if to.Stopped? || to.Error? then AfterReset(d)
        else if d.pending.Some? && to.UserConfirmed? then Republished(d, Confirmed)
        else if d.pending.Some? && to.UserRejected? then Republished(d, Refused)
        else d;
      Add(e, Simple(StateChanged(to)))
  }

  function AfterUserMessage(c: Ctl): Ctl {
    SetState(Add(c, Simple(Recall)).(pending := Some(Pending(Recall, |c.log|, None))), Running)
  }

  function TruncatedTo(c: Ctl, point: nat): Ctl {
    c.(history := Stuck.TruncatedTo(c.history, point))
  }

  function AfterLoopRecovery(c: Ctl, option: int): Ctl {
    if c.loopStart.None? then c
    else
      var point := c.loopStart.value;
      if option == 3 then SetState(c, Stopped)
      else if option == 2 && exists i | 0 <= i < |c.history| :: c.history[i].payload.UserMessage? then
        AfterUserMessage(Add(SetState(TruncatedTo(c, point), Running), Simple(Obs(false))))
      else if option == 1 || option == 2 then
        Add(SetState(TruncatedTo(c, point), AwaitingUserInput), Simple(Obs(false)))
      else c
  }

  predicate Answers(c: Ctl, e: Event) {
    c.pending.Some? && e.cause == Some(c.pending.value.id)
  }

  function AfterObservation(c: Ctl, e: Event): Ctl {
    if !Answers(c, e) || c.agentState.AwaitingUserConfirmation? then c
    else
      var d := c.(pending := None);
      if d.agentState.UserConfirmed? then SetState(d, Running)
      else if d.agentState.UserRejected? then SetState(d, AwaitingUserInput)
      else d
  }

  function Handled(c: Ctl, e: Event): Ctl {
    match e.payload
    case ChangeState(to) => SetState(c, to)
    case UserMessage => AfterUserMessage(c)
    case AgentMessage(true) => SetState(c, AwaitingUserInput)
    case Finish => SetState(c, Finished)
    case Reject => SetState(c, Rejected)
    case LoopRecovery(option) => AfterLoopRecovery(c, option)
    case Obs(_) => AfterObservation(c, e)
    case NullObs => AfterObservation(c, e)
    case StateChanged(_) => AfterObservation(c, e)
    case _ => c
  }

  predicate ShouldStep(c: Ctl, e: Event) {
    match e.payload
    case UserMessage => true
    case AgentMessage(_) => !c.agentState.AwaitingUserInput?
    case Condensation => true
    case Obs(_) => true
    case NullObs => e.cause.Some? && e.cause.value > 0
    case _ => false
  }

  function FirstStatus(cfg: Config, k: Kind, risk: Risk): Option<Status> {
    if Awaits(cfg, k, risk) then Some(AwaitingConfirmation) else if Declares(k) then Some(Confirmed) else None
  }

  function AfterAct(cfg: Config, c: Ctl, k: Kind, risk: Risk, meta: Option<nat>): Ctl {
    var p := Runnable(k, Some(c.nextToken), FirstStatus(cfg, k, risk));
    var d := c.(pending := Some(Pending(p, -1, meta)), nextToken := c.nextToken + 1);
    var e := if Awaits(cfg, k, risk) then SetState(d, AwaitingUserConfirmation) else d;
    Add(e, Event(Wire(p), None, meta, false)).(pending := Some(Pending(p, |e.log|, meta)))
  }

  function Checked(c: Ctl, d: Decision): Ctl {
    if d.IsStuck? then c.(loopStart := Some(d.loopStart)) else if d.clears then c.(loopStart := None) else c
  }

  function Stepped(cfg: Config, c: Ctl, d: Decision): Ctl {
    if !c.agentState.Running? || c.pending.Some? then c else Outcome(cfg, Checked(c, d), d)
  }

  function Outcome(cfg: Config, c: Ctl, d: Decision): Ctl {
    match d
    case IsStuck(_) => SetState(c, Error)
    case Fails(_) => SetState(c, Error)
    case HitsRateLimit(_) => SetState(c, RateLimited)
    case NoBalance(_) => SetState(Add(c, Simple(Obs(false))), Paused)
    case Malformed(_) => Add(c, Simple(Obs(false)))
    case ContextFull(_) => Add(c, Simple(Condensation))
    case Act(_, k, risk, meta) => AfterAct(cfg, c, k, risk, meta)
    case Say(_, p, meta) => if Sayable(p) then Add(c, Event(p, None, meta, false)) else c
  }

  function Remembered(c: Ctl, e: Event): Ctl {
    if e.payload.NullAction? || e.payload.NullObs? || e.payload.ChangeState? || e.payload.StateChanged? then c
    else c.(history := c.history + [e])
  }

  function OnEvent(cfg: Config, c: Ctl, e: Event, d: Decision): Ctl {
    if e.hidden then c
    else
      var h := Handled(Remembered(c, e), e);
      if ShouldStep(h, e) then Stepped(cfg, h, d) else h
  }

  // ---- What every transition keeps ----

  /** The pending action is the event published under its id. */
  predicate OnLog(c: Ctl) {
    c.pending.Some? ==>
      var p := c.pending.value;
      0 <= p.id < |c.log| && c.log[p.id] == Event(Wire(p.payload), None, p.meta, false)
  }

  /** A pending runnable action is one the agent decided on. */
  predicate PendingOk(c: Ctl) {
    c.pending.Some? && c.pending.value.payload.Runnable? ==>
      c.pending.value.payload.token.Some? && c.pending.value.payload.token.value < c.nextToken
  }

  /** The log has only grown, and what held of the pending action still holds. */
  predicate Keeps(c: Ctl, n: Ctl) {
    c.log <= n.log && (OnLog(c) ==> OnLog(n)) && (PendingOk(c) ==> PendingOk(n))
  }

  lemma ConsistentAfter(c: Ctl, n: Ctl)
    requires OnLog(c) && PendingOk(c) && Keeps(c, n)
    ensures OnLog(n) && PendingOk(n) && c.log <= n.log
  {
  }

  lemma SetStateKeeps(c: Ctl, to: AgentState)
    ensures Keeps(c, SetState(c, to)) && SetState(c, to).agentState == to
    ensures SetState(c, to).history == c.history && SetState(c, to).loopStart == c.loopStart
    ensures to != c.agentState ==>
      var n := SetState(c, to); n.log != [] && n.log[|n.log| - 1] == Simple(StateChanged(to))
  {
    hide HasResult;
  }

  /** Confirming or refusing publishes the pending action again, under a new id. */
  lemma AnswerRepublishes(c: Ctl, to: AgentState)
    requires c.pending.Some? && (to.UserConfirmed? || to.UserRejected?) && to != c.agentState
    ensures var n := SetState(c, to);
      && n.pending.Some? && n.pending.value.id == |c.log| && OnLog(n)
      && n.pending.value.payload == Stamped(c.pending.value.payload, if to.UserConfirmed? then Confirmed else Refused)
  {
  }

  lemma UserMessageKeeps(c: Ctl)
    ensures Keeps(c, AfterUserMessage(c)) && OnLog(AfterUserMessage(c)) && PendingOk(AfterUserMessage(c))
    ensures AfterUserMessage(c).history == c.history && AfterUserMessage(c).loopStart == c.loopStart
  {
    hide SetState;
    SetStateKeeps(Add(c, Simple(Recall)).(pending := Some(Pending(Recall, |c.log|, None))), Running);
  }

  lemma LoopRecoveryKeeps(c: Ctl, option: int)
    requires OnLog(c)
    ensures Keeps(c, AfterLoopRecovery(c, option)) && AfterLoopRecovery(c, option).loopStart == c.loopStart
    ensures AfterLoopRecovery(c, option).history ==
      if c.loopStart.Some? && (option == 1 || option == 2) then TruncatedTo(c, c.loopStart.value).history else c.history
  {
    hide SetState, AfterUserMessage;
    if c.loopStart.Some? {
      var d := TruncatedTo(c, c.loopStart.value);
      SetStateKeeps(c, Stopped);
      SetStateKeeps(d, Running);
      SetStateKeeps(d, AwaitingUserInput);
      UserMessageKeeps(Add(SetState(d, Running), Simple(Obs(false))));
    }
  }

  lemma ObservationKeeps(c: Ctl, e: Event)
    ensures Keeps(c, AfterObservation(c, e))
    ensures AfterObservation(c, e).history == c.history && AfterObservation(c, e).loopStart == c.loopStart
    ensures Answers(c, e) && !c.agentState.AwaitingUserConfirmation? ==> AfterObservation(c, e).pending.None?
  {
    hide SetState;
    SetStateKeeps(c.(pending := None), Running);
    SetStateKeeps(c.(pending := None), AwaitingUserInput);
    hide Keeps;
    NothingPending(c.(pending := None), Running);
    NothingPending(c.(pending := None), AwaitingUserInput);
    ClearingKeeps(c, SetState(c.(pending := None), Running));
    ClearingKeeps(c, SetState(c.(pending := None), AwaitingUserInput));
    ClearingKeeps(c, c.(pending := None));
    KeepsItself(c);
  }

  lemma NothingPending(c: Ctl, to: AgentState)
    requires c.pending.None?
    ensures SetState(c, to).pending.None? && c.log <= SetState(c, to).log
  {
  }

  lemma ClearingKeeps(c: Ctl, n: Ctl)
    ensures n.pending.None? && c.log <= n.log ==> Keeps(c, n)
  {
  }

  lemma KeepsItself(c: Ctl)
    ensures Keeps(c, c)
  {
  }

  lemma HandledKeeps(c: Ctl, e: Event)
    requires OnLog(c)
    ensures Keeps(c, Handled(c, e)) && Handled(c, e).loopStart == c.loopStart
    ensures Handled(c, e).history ==
      if c.loopStart.Some? && (e.payload == LoopRecovery(1) || e.payload == LoopRecovery(2))
      then TruncatedTo(c, c.loopStart.value).history else c.history
  {
    hide SetState, AfterUserMessage, AfterLoopRecovery, AfterObservation, Keeps, OnLog;
    KeepsItself(c);
    match e.payload
    case ChangeState(to) => SetStateKeeps(c, to);
    case UserMessage => UserMessageKeeps(c);
    case AgentMessage(_) => SetStateKeeps(c, AwaitingUserInput);
    case Finish => SetStateKeeps(c, Finished);
    case Reject => SetStateKeeps(c, Rejected);
    case LoopRecovery(option) => LoopRecoveryKeeps(c, option);
    case _ => ObservationKeeps(c, e);
  }

  lemma SteppedKeeps(cfg: Config, c: Ctl, d: Decision)
    requires OnLog(c)
    ensures Keeps(c, Stepped(cfg, c, d)) && Stepped(cfg, c, d).history == c.history
  {
    hide SetState, Awaits;
    var b := Checked(c, d);
    SetStateKeeps(b, Error);
    SetStateKeeps(b, RateLimited);
    SetStateKeeps(Add(b, Simple(Obs(false))), Paused);
    if d.Act? {
      var p := Runnable(d.kind, Some(b.nextToken), FirstStatus(cfg, d.kind, d.risk));
      SetStateKeeps(b.(pending := Some(Pending(p, -1, d.meta)), nextToken := b.nextToken + 1), AwaitingUserConfirmation);
      ActKeeps(cfg, b, d.kind, d.risk, d.meta);
    }
  }

  lemma ActKeeps(cfg: Config, c: Ctl, k: Kind, risk: Risk, meta: Option<nat>)
    ensures PendingOk(AfterAct(cfg, c, k, risk, meta)) && OnLog(AfterAct(cfg, c, k, risk, meta))
  {
    hide SetState, Awaits;
    var p := Runnable(k, Some(c.nextToken), FirstStatus(cfg, k, risk));
    SameToken(c.(pending := Some(Pending(p, -1, meta)), nextToken := c.nextToken + 1), AwaitingUserConfirmation);
  }

  lemma OneTokenMore(cfg: Config, c: Ctl, d: Decision)
    ensures Stepped(cfg, c, d).nextToken != c.nextToken ==> c.agentState.Running? && c.pending.None?
  {
  }

  lemma SameToken(c: Ctl, to: AgentState)
    ensures SetState(c, to).nextToken == c.nextToken
  {
  }

  // ---- The controller ----

  class AgentController {
    const cfg: Config
    var agentState: AgentState
    var pending: Option<Pending>
    var history: seq<Event>
    var loopStart: Option<nat>
    var log: seq<Event>
    var nextToken: nat

    ghost function View(): Ctl
      reads this
    {
      Ctl(agentState, pending, history, loopStart, log, nextToken)
    }

    /** The pending action is the event published under its id, and one the agent decided on. */
    ghost predicate Valid()
      reads this
    {
      OnLog(View()) && PendingOk(View())
    }

    constructor (cfg: Config)
      ensures Valid() && this.cfg == cfg && View() == Ctl(Loading, None, [], None, [], 0)
    {
      this.cfg := cfg;
      agentState, pending, history, loopStart, log, nextToken := Loading, None, [], None, [], 0;
    }

    method AddEvent(e: Event) returns (id: nat)
      modifies this`log
      ensures View() == Add(old(View()), e) && id == |old(log)| && log[id] == e
      ensures old(Valid()) ==> Valid()
    {
      id := |log|;
      log := log + [e];
    }

    /** After a reset the pending action has an observation with its metadata, and is forgotten. */
    method Reset()
      modifies this`log, this`pending
      ensures View() == AfterReset(old(View())) && Valid() && pending == None && old(log) <= log
      ensures old(pending).Some? ==>
        || HasResult(history, old(pending).value.meta)
        || (log == old(log) + [Event(Obs(false), Some(old(pending).value.id), old(pending).value.meta, false)])
    {
      if pending.Some? {
        var found := false;
        for i := 0 to |history|
          invariant !found
          invariant forall j | 0 <= j < i :: !(IsObservation(history[j].payload) && history[j].meta == pending.value.meta)
        {
          if IsObservation(history[i].payload) && history[i].meta == pending.value.meta {
            found := true;
            break;
          }
        }
        if !found {
          var _ := AddEvent(Event(Obs(false), Some(pending.value.id), pending.value.meta, false));
        }
      }
      pending := None;
    }

    method SetAgentStateTo(to: AgentState)
      modifies this`agentState, this`log, this`pending
      ensures View() == SetState(old(View()), to)
      ensures old(Valid()) ==> Valid()
      ensures agentState == to && old(log) <= log
      ensures to != old(agentState) ==> log != [] && log[|log| - 1] == Simple(StateChanged(to))
      ensures to != old(agentState) && (to.UserConfirmed? || to.UserRejected?) && old(pending).Some? ==>
        && pending.Some? && pending.value.id == |old(log)|
        && pending.value.payload == Stamped(old(pending).value.payload, if to.UserConfirmed? then Confirmed else Refused)
    {
      SetStateKeeps(View(), to);
      if pending.Some? && (to.UserConfirmed? || to.UserRejected?) && to != agentState { AnswerRepublishes(View(), to); }
      if to == agentState {
        return;
      }
      agentState := to;
      if to.Stopped? || to.Error? {
        Reset();
      }
      if pending.Some? && (to.UserConfirmed? || to.UserRejected?) {
        var p := Stamped(pending.value.payload, if to.UserConfirmed? then Confirmed else Refused);
        var id := AddEvent(Event(Wire(p), None, pending.value.meta, false));
        pending := Some(Pending(p, id, pending.value.meta));
      }
      var _ := AddEvent(Simple(StateChanged(to)));
    }

    method HandleObservation(e: Event)
      modifies this`agentState, this`log, this`pending
      ensures View() == AfterObservation(old(View()), e)
      ensures old(Valid()) ==> Valid()
      ensures old(Answers(View(), e)) ==> pending == if old(agentState).AwaitingUserConfirmation? then old(pending) else None
    {
      ObservationKeeps(View(), e);
      if pending.Some? && e.cause == Some(pending.value.id) {
        if agentState.AwaitingUserConfirmation? {
          return;
        }
        pending := None;
        if agentState.UserConfirmed? {
          SetAgentStateTo(Running);
        }
        if agentState.UserRejected? {
          SetAgentStateTo(AwaitingUserInput);
        }
      }
    }

    method HandleUserMessage()
      modifies this`agentState, this`log, this`pending
      ensures View() == AfterUserMessage(old(View())) && Valid()
    {
      UserMessageKeeps(View());
      var id := AddEvent(Simple(Recall));
      pending := Some(Pending(Recall, id, None));
      if !agentState.Running? {
        SetAgentStateTo(Running);
      }
    }

    method TruncateMemory(point: nat)
      modifies this`history
      ensures View() == TruncatedTo(old(View()), point)
      ensures old(Valid()) ==> Valid()
    {
      if point >= |history| {
        return;
      }
      history := history[..point];
    }

    method HandleLoopRecovery(option: int)
      modifies this`agentState, this`log, this`pending, this`history
      requires Valid()
      ensures View() == AfterLoopRecovery(old(View()), option) && Valid()
    {
      LoopRecoveryKeeps(View(), option);
      if loopStart.None? {
        return;
      }
      var restart := option == 2 && exists i | 0 <= i < |history| :: history[i].payload.UserMessage?;
      if restart {
        TruncateMemory(loopStart.value);
        SetAgentStateTo(Running);
        var _ := AddEvent(Simple(Obs(false)));
        HandleUserMessage();
      } else if option == 1 || option == 2 {
        TruncateMemory(loopStart.value);
        SetAgentStateTo(AwaitingUserInput);
        var _ := AddEvent(Simple(Obs(false)));
      } else if option == 3 {
        SetAgentStateTo(Stopped);
      }
    }

    method HandleEvent(e: Event)
      modifies this`agentState, this`log, this`pending, this`history
      requires Valid()
      ensures View() == Handled(old(View()), e) && Valid() && old(log) <= log
    {
      HandledKeeps(View(), e);
      ConsistentAfter(View(), Handled(View(), e));
      hide OnLog, PendingOk, Keeps, SetState, AfterUserMessage, AfterLoopRecovery, AfterObservation;
      match e.payload
      case ChangeState(to) => SetAgentStateTo(to);
      case UserMessage => HandleUserMessage();
      case AgentMessage(true) => SetAgentStateTo(AwaitingUserInput);
      case Finish => SetAgentStateTo(Finished);
      case Reject => SetAgentStateTo(Rejected);
      case LoopRecovery(option) => HandleLoopRecovery(option);
      case Obs(_) => HandleObservation(e);
      case NullObs => HandleObservation(e);
      case StateChanged(_) => HandleObservation(e);
      case _ =>
    }

    /** The end of `_step`: a runnable action becomes pending, may have to wait, and is published. */
    method PublishAction(k: Kind, risk: Risk, meta: Option<nat>)
      modifies this`agentState, this`log, this`pending, this`nextToken
      ensures View() == AfterAct(cfg, old(View()), k, risk, meta) && Valid()
    {
      ActKeeps(cfg, View(), k, risk, meta);
      hide SetState, Awaits, OnLog, PendingOk;
      var p := Runnable(k, Some(nextToken), FirstStatus(cfg, k, risk));
      nextToken := nextToken + 1;
      pending := Some(Pending(p, -1, meta));
      if p.status == Some(AwaitingConfirmation) {
        SetAgentStateTo(AwaitingUserConfirmation);
      }
      var id := AddEvent(Event(Wire(p), None, meta, false));
      pending := Some(Pending(p, id, meta));
    }

    /** `_step`, given what the agent decides. */
    method Step(d: Decision)
      modifies this
      requires Valid()
      ensures View() == Stepped(cfg, old(View()), d) && Valid() && old(log) <= log
      ensures nextToken != old(nextToken) ==> old(agentState).Running? && old(pending).None?
    {
      SteppedKeeps(cfg, View(), d);
      ConsistentAfter(View(), Stepped(cfg, View(), d));
      OneTokenMore(cfg, View(), d);
      hide SetState, AfterAct, Awaits, OnLog, PendingOk, Keeps;
      if !agentState.Running? || pending.Some? {
        return;
      }
      if d.IsStuck? {
        loopStart := Some(d.loopStart);
      } else if d.clears {
        loopStart := None;
      }
      match d
      case IsStuck(_) => SetAgentStateTo(Error);
      case Fails(_) => SetAgentStateTo(Error);
      case HitsRateLimit(_) => SetAgentStateTo(RateLimited);
      case NoBalance(_) =>
        var _ := AddEvent(Simple(Obs(false)));
        SetAgentStateTo(Paused);
      case Malformed(_) => var _ := AddEvent(Simple(Obs(false)));
      case ContextFull(_) => var _ := AddEvent(Simple(Condensation));
      case Act(_, k, risk, meta) => PublishAction(k, risk, meta);
      case Say(_, p, meta) =>
        if Sayable(p) {
          var _ := AddEvent(Event(p, None, meta, false));
        }
    }

    method HandleStreamEvent(e: Event, d: Decision)
      modifies this
      requires Valid()
      ensures View() == OnEvent(cfg, old(View()), e, d) && Valid() && old(log) <= log
    {
      if e.hidden {
        return;
      }
      if !(e.payload.NullAction? || e.payload.NullObs? || e.payload.ChangeState? || e.payload.StateChanged?) {
        history := history + [e];
      }
      HandleEvent(e);
      if ShouldStep(Ctl(agentState, pending, history, loopStart, log, nextToken), e) {
        Step(d);
      }
    }
  }
}
