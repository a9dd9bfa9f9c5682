/** What the controller does, said on states and published events: which actions wait for the user, when
    the agent is asked for its next action, and what each decision, event and change of state leads to. */
module ControlMeaning {
  import opened Wrappers
  import opened Controller
  import ConfirmationRuns
  import Stuck

  /** The last event published is this action, and it is the pending one, with the status held for it. */
  predicate Published(n: Ctl, p: Payload, held: Option<Status>, meta: Option<nat>) {
    && p.Runnable? && n.log != [] && n.log[|n.log| - 1] == Event(p, None, meta, false)
    && n.pending == Some(Pending(p.(status := held), |n.log| - 1, meta))
  }

  // ---- Which actions wait ----

  /** The settings ask for confirmation if the conversation is in confirmation mode and either the command
      line interface is used, or confirmation is on and the risk is high, or unknown with nothing to analyse it.
      Then commands and cells are published to wait, and in every other setting they are published to run. */
  lemma CommandsWaitExactly(cfg: Config, c: Ctl, d: Decision)
    requires c.agentState.Running? && c.pending.None? && d.Act? && (d.kind.CmdRun? || d.kind.IPython?)
    ensures var n := Stepped(cfg, c, d);
      var asks := cfg.stateConfirmation
        && (cfg.cliMode || (cfg.confirmationMode && (d.risk.High? || (d.risk.Unknown? && !cfg.analyzer))));
      && (asks ==>
           && n.agentState.AwaitingUserConfirmation?
           && Published(n, Runnable(d.kind, Some(c.nextToken), Some(AwaitingConfirmation)), Some(AwaitingConfirmation), d.meta)
           && !ConfirmationRuns.Runs(n.log[|n.log| - 1].payload)
           && n.log == c.log + [Event(StateChanged(AwaitingUserConfirmation), None, None, false), n.log[|n.log| - 1]])
      && (!asks ==>
           && n.agentState.Running?
           && Published(n, Runnable(d.kind, Some(c.nextToken), Some(Confirmed)), Some(Confirmed), d.meta)
           && ConfirmationRuns.Runs(n.log[|n.log| - 1].payload)
           && n.log == c.log + [n.log[|n.log| - 1]])
  {
  }

  /** Edits, reads and browser actions make the controller wait in the same settings, but what is
      published runs at once. */
  lemma EditsWaitInVain(cfg: Config, c: Ctl, d: Decision)
    requires c.agentState.Running? && c.pending.None? && d.Act?
    requires d.kind.FileEdit? || d.kind.FileRead? || d.kind.BrowseInteractive?
    ensures var n := Stepped(cfg, c, d);
      var asks := cfg.stateConfirmation
        && (cfg.cliMode || (cfg.confirmationMode && (d.risk.High? || (d.risk.Unknown? && !cfg.analyzer))));
      && Published(n, Runnable(d.kind, Some(c.nextToken), None), if asks then Some(AwaitingConfirmation) else None, d.meta)
      && ConfirmationRuns.Runs(n.log[|n.log| - 1].payload)
      && n.agentState == if asks then AwaitingUserConfirmation else Running
  {
  }

  /** Opening a page and calling a tool server never wait. */
  lemma OthersNeverWait(cfg: Config, c: Ctl, d: Decision)
    requires c.agentState.Running? && c.pending.None? && d.Act? && (d.kind.BrowseUrl? || d.kind.Mcp?)
    ensures var n := Stepped(cfg, c, d);
      && Published(n, Runnable(d.kind, Some(c.nextToken), None), None, d.meta)
      && ConfirmationRuns.Runs(n.log[|n.log| - 1].payload) && n.agentState.Running?
  {
  }

  /** The runtime carries out what neither waits nor was refused, and what goes to a tool server in any case. */
  lemma RunsExactly(p: Payload)
    ensures ConfirmationRuns.Runs(p) <==>
      && p.Runnable? && (p.kind.Mcp? || p.status == None || p.status == Some(Confirmed))
  {
    if p.Runnable? && p.status.Some? {
      var s := p.status.value;
      assert s.Confirmed? || s.Refused? || s.AwaitingConfirmation?;
    }
  }

  // ---- When the agent is asked ----

  /** The agent is asked after a message of the user, a message of its own unless the user is waited for,
      a condensation, and an observation other than a change of state or an empty one without a real cause;
      and nothing is asked or remembered for a hidden event. */
  lemma AskedExactly(cfg: Config, c: Ctl, e: Event, d: Decision)
    ensures e.hidden ==> OnEvent(cfg, c, e, d) == c
    ensures var h := Handled(Remembered(c, e), e);
      !e.hidden ==>
        OnEvent(cfg, c, e, d) ==
        if e.payload.UserMessage? || e.payload.Condensation? || e.payload.Obs?
           || (e.payload.AgentMessage? && h.agentState != AwaitingUserInput)
           || (e.payload.NullObs? && e.cause.Some? && e.cause.value > 0)
        then Stepped(cfg, h, d) else h
  {
    hide Handled, Stepped, Remembered;
  }

  /** The agent acts only while it is running and nothing is pending; whatever it does, the history stays. */
  lemma ActsExactly(cfg: Config, c: Ctl, d: Decision)
    ensures !c.agentState.Running? || c.pending.Some? ==> Stepped(cfg, c, d) == c
    ensures c.agentState.Running? && c.pending.None? ==>
      && Stepped(cfg, c, d).loopStart == (if d.IsStuck? then Some(d.loopStart) else if d.clears then None else c.loopStart)
      && Stepped(cfg, c, d).nextToken == (if d.Act? then c.nextToken + 1 else c.nextToken)
      && Stepped(cfg, c, d).history == c.history
  {
    hide HasResult, Awaits;
  }

  /** What each outcome of a step publishes, and the state it leads to. */
  lemma OutcomesExactly(cfg: Config, c: Ctl, d: Decision)
    requires c.agentState.Running? && c.pending.None? && !d.Act?
    ensures var n := Stepped(cfg, c, d);
      var error, info := Event(Obs(false), None, None, false), (s: AgentState) => Event(StateChanged(s), None, None, false);
      && n.pending.None?
      && (d.IsStuck? || d.Fails? ==> n.agentState.Error? && n.log == c.log + [info(Error)])
      && (d.HitsRateLimit? ==> n.agentState.RateLimited? && n.log == c.log + [info(RateLimited)])
      && (d.NoBalance? ==> n.agentState.Paused? && n.log == c.log + [error, info(Paused)])
      && (d.Malformed? ==> n.agentState.Running? && n.log == c.log + [error])
      && (d.ContextFull? ==> n.agentState.Running? && n.log == c.log + [Event(Condensation, None, None, false)])
  {
  }

  /** The other actions are published as they are, and the agent keeps running. */
  lemma SaysExactly(cfg: Config, c: Ctl, d: Decision)
    requires c.agentState.Running? && c.pending.None? && d.Say?
    requires d.payload.AgentMessage? || d.payload.Finish? || d.payload.Reject? || d.payload.Condensation?
      || d.payload.Thought? || d.payload.OtherAction? || d.payload.Recall?
    ensures var n := Stepped(cfg, c, d);
      n.agentState.Running? && n.pending.None? && n.log == c.log + [Event(d.payload, None, d.meta, false)]
  {
  }

  // ---- What the events lead to ----

  /** Everything is remembered except empty events and changes of state. */
  lemma RememberedExactly(c: Ctl, e: Event)
    ensures Remembered(c, e).(history := c.history) == c
    ensures Remembered(c, e).history ==
      if e.payload.NullAction? || e.payload.NullObs? || e.payload.ChangeState? || e.payload.StateChanged? then c.history
      else c.history + [e]
  {
  }

  /** The states that actions lead to, and the actions that change nothing. */
  lemma ActionsLeadTo(c: Ctl, e: Event)
    ensures e.payload.ChangeState? ==> Handled(c, e).agentState == e.payload.to
    ensures e.payload.UserMessage? ==>
      && Handled(c, e).agentState.Running? && Handled(c, e).pending == Some(Pending(Recall, |c.log|, None))
      && |c.log| < |Handled(c, e).log| && Handled(c, e).log[|c.log|] == Event(Recall, None, None, false)
    ensures e.payload == AgentMessage(true) ==> Handled(c, e).agentState.AwaitingUserInput?
    ensures e.payload.Finish? ==> Handled(c, e).agentState.Finished?
    ensures e.payload.Reject? ==> Handled(c, e).agentState.Rejected?
    ensures e.payload == AgentMessage(false) || e.payload.Runnable? || e.payload.Recall? ==> Handled(c, e) == c
    ensures e.payload.Condensation? || e.payload.Thought? ==> Handled(c, e) == c
    ensures e.payload.OtherAction? || e.payload.NullAction? ==> Handled(c, e) == c
  {
    hide HasResult;
  }

  /** An observation matters only if it answers the pending action and the user is not waited for; then the
      action is done with, after a confirmation the agent runs on, after a refusal the user has the word. */
  lemma ObservationsLeadTo(c: Ctl, e: Event)
    requires e.payload.Obs? || e.payload.NullObs? || e.payload.StateChanged?
    ensures c.pending.None? || e.cause != Some(c.pending.value.id) ==> Handled(c, e) == c
    ensures c.agentState.AwaitingUserConfirmation? ==> Handled(c, e) == c
    ensures c.pending.Some? && e.cause == Some(c.pending.value.id) && !c.agentState.AwaitingUserConfirmation? ==>
      && Handled(c, e).pending.None?
      && Handled(c, e).agentState ==
           (if c.agentState.UserConfirmed? then Running
            else if c.agentState.UserRejected? then AwaitingUserInput
            else c.agentState)
      && Handled(c, e).history == c.history
  {
  }

  /** The three recovery options: wait for the user with the history cut, go on from the user's last message
      with the history cut, or stop; without an analysis none does anything. */
  lemma RecoveryLeadsTo(c: Ctl, e: Event)
    requires e.payload.LoopRecovery?
    ensures var n := Handled(c, e);
      var said := exists i | 0 <= i < |c.history| :: c.history[i].payload.UserMessage?;
      && (c.loopStart.None? || !(1 <= e.payload.option <= 3) ==> n == c)
      && (c.loopStart.Some? && e.payload.option == 3 ==> n.agentState.Stopped? && n.history == c.history)
      && (c.loopStart.Some? && (e.payload.option == 1 || (e.payload.option == 2 && !said)) ==>
            n.agentState.AwaitingUserInput? && CutAt(c, n, c.loopStart.value) && n.pending == c.pending)
      && (c.loopStart.Some? && e.payload.option == 2 && said ==>
            n.agentState.Running? && CutAt(c, n, c.loopStart.value)
            && n.pending.Some? && n.pending.value.payload.Recall?)
  {
    hide HasResult;
  }

  predicate CutAt(c: Ctl, n: Ctl, start: nat) {
    n.history <= c.history && |n.history| == if start < |c.history| then start else |c.history|
  }

  // ---- What a change of state publishes ----

  /** Nothing to change is nothing done; any other change is announced last. */
  lemma ChangesAreAnnounced(c: Ctl, to: AgentState)
    ensures to == c.agentState ==> SetState(c, to) == c
    ensures to != c.agentState ==>
      var n := SetState(c, to);
      && n.agentState == to && n.history == c.history && n.nextToken == c.nextToken && n.loopStart == c.loopStart
      && |n.log| > |c.log| && n.log[|n.log| - 1] == Event(StateChanged(to), None, None, false) && c.log <= n.log
      && (c.pending.None? || !(to.Stopped? || to.Error? || to.UserConfirmed? || to.UserRejected?) ==>
            |n.log| == |c.log| + 1 && n.pending == c.pending)
  {
    hide HasResult;
  }

  /** Stopping, and an error, leave nothing pending: the action has an observation with its metadata in the
      history, or one is published in its place. */
  lemma StoppingAnswers(c: Ctl, to: AgentState)
    requires (to.Stopped? || to.Error?) && to != c.agentState && c.pending.Some?
    ensures var n, p := SetState(c, to), c.pending.value;
      var answered := exists i | 0 <= i < |c.history| ::
        && (c.history[i].payload.Obs? || c.history[i].payload.NullObs? || c.history[i].payload.StateChanged?)
        && c.history[i].meta == p.meta;
      && n.pending.None?
      && n.log == c.log + (if answered then [] else [Event(Obs(false), Some(p.id), p.meta, false)])
                        + [Event(StateChanged(to), None, None, false)]
  {
    assert c.log + [] == c.log;
  }

  /** The user's answer publishes the pending action once more.  Of commands and cells it carries the answer;
      of other actions it does not, so that a refused one is published in a form that runs. */
  lemma AnswersArePublished(c: Ctl, to: AgentState)
    requires (to.UserConfirmed? || to.UserRejected?) && to != c.agentState
    requires c.pending.Some? && c.pending.value.payload.Runnable?
    ensures var n, p := SetState(c, to), c.pending.value;
      var answer := if to.UserConfirmed? then Confirmed else Refused;
      var sent := if p.payload.kind.CmdRun? || p.payload.kind.IPython? then Some(answer) else None;
      && n.log == c.log + [Event(Runnable(p.payload.kind, p.payload.token, sent), None, p.meta, false),
                           Event(StateChanged(to), None, None, false)]
      && n.pending == Some(Pending(Runnable(p.payload.kind, p.payload.token, Some(answer)), |c.log|, p.meta))
  {
  }

  // ---- Answers reach the action they answer ----

  /** The runtime answers what it carried out if there is something to say, a refused action with a rejection,
      a waiting one and anything else not at all; an answer names the event and carries its metadata. */
  lemma ReplyExactly(e: Event, id: nat, worked: bool)
    ensures var r := ConfirmationRuns.Reply(e, id, worked);
      var p := e.payload;
      && (r.Some? <==> if p.Runnable? && !p.kind.Mcp? && p.status == Some(Refused) then true
                       else worked && (p.Thought? || (p.Runnable? && (p.kind.Mcp? || p.status != Some(AwaitingConfirmation)))))
      && (r.Some? ==> r.value == Event(Obs(p.Runnable? && !p.kind.Mcp? && p.status == Some(Refused)), Some(id), e.meta, false))
  {
  }

  /** What the runtime answers to the pending action is an observation that names it and carries its metadata. */
  lemma ReplyAnswers(c: Ctl, worked: bool)
    requires OnLog(c) && c.pending.Some?
    requires ConfirmationRuns.Reply(c.log[c.pending.value.id], c.pending.value.id, worked).Some?
    ensures var r := ConfirmationRuns.Reply(c.log[c.pending.value.id], c.pending.value.id, worked).value;
      && r.payload.Obs? && r.cause == Some(c.pending.value.id) && r.meta == c.pending.value.meta && !r.hidden
      && (!c.agentState.AwaitingUserConfirmation? ==> Handled(c, r).pending.None?)
  {
    hide SetState;
    ObservationsLeadTo(c, ConfirmationRuns.Reply(c.log[c.pending.value.id], c.pending.value.id, worked).value);
  }

  /** So is what the memory answers to a recall. */
  lemma RecallIsAnswered(cfg: Config, s: ConfirmationRuns.St, empty: bool)
    requires ConfirmationRuns.Enabled(s, ConfirmationRuns.Remember(true, empty))
    requires OnLog(s.ctl) && s.ctl.pending.Some? && s.ctl.pending.value.payload.Recall? && s.ctl.pending.value.id == s.memAt
    ensures var n := ConfirmationRuns.Next(cfg, s, ConfirmationRuns.Remember(true, empty));
      && |n.ctl.log| == |s.ctl.log| + 1
      && var r := n.ctl.log[|s.ctl.log|];
         && r.cause == Some(s.ctl.pending.value.id)
         && (r.payload.Obs? || r.payload.NullObs?) && (r.payload.NullObs? <==> empty)
         && (!n.ctl.agentState.AwaitingUserConfirmation? ==> Handled(n.ctl, r).pending.None?)
  {
    hide SetState;
    var n := ConfirmationRuns.Next(cfg, s, ConfirmationRuns.Remember(true, empty));
    ObservationsLeadTo(n.ctl, n.ctl.log[|s.ctl.log|]);
  }
}
