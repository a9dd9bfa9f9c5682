# Verification of the agent's message, event and control core

This project models the parts of the agent server that keep its promises across several calls, and proves those
promises in Dafny. It needs nothing besides Dafny 4.11; `dafny verify dfyconfig.toml` checks all of it. Nothing was executed.

| files | what they model |
|---|---|
| `Strings`, `Decimal`, `CallSyntax`, `SyntaxMeaning`, `CallRoundTrip`, `FnConverter`, `FnMeaning`, `FnRoundTrip`, `MultiCallSplit` | tool calls as text and back: printer, regex parser, stop-word repair, tag normalisation, both message converters, splitting of multi-call messages |
| `PagedEvents`, `EventStream`, `WritePages`, `EventDelivery`, `StreamDelivery`, `NestedEvents` | the event stream: paged store and its search, writers running side by side, the queue thread and its subscribers, both together, and the client that reads a remote conversation page by page |
| `ConversationMemory`, `MessageTexts`, `ToolCallPairs`, `CompleteCalls`, `View` | building the model's messages from an event history, and the condensed view of a history |
| `Controller`, `ControlMeaning`, `ConfirmationRuns`, `Stuck`, `StuckMeaning` | pending action, confirmation and reset; runs of controller, runtime, memory and user over one stream; loop detection and history truncation |
| `BatchedMirror`, `MirrorRuns` | the write-coalescing buffer that mirrors a file store |
| `RateLimiter` | the sliding-window rate limiter |

Methods and classes follow the control flow of the code and are proved equal to specification functions; the theorems
are about those functions and about runs of state machines built from them. The state machines take the atomic steps
the code has: what happens under a lock, or in one handler of one single-threaded component, is one step.

## Results that differ from what one might expect

- A parameter value comes back from the text exactly when it holds neither `</parameter>` nor `</function>` and does not
  end in a malformed parameter tag (`FullTextExact`). Text cut at the stop word needs, besides, that no value
  holds `<function=` (`TruncatedExact`). `MalformedValueIsLost` is a value that is changed.
- Only the classes of shell commands and notebook cells declare a confirmation state. On file edits, file reads and browser
  actions the controller sets it as a plain attribute, and the stream stores and delivers the fields of the class
  only. Those actions are executed without waiting (`HeldBackExactly`, `EditRunsWhileWaiting`), and refusing one publishes it once
  more in a form that is executed (the refusals counted in `ExecutedExactly`).
- A restart while an add is in flight can give out an id twice (`RestartContinues`, `UncleanRestartReusesAnId`).
- Two concurrent operations on one path can leave the mirror different from the store (`MirrorExact`, `OverlapDiverges`).
- The paging client comes to an end exactly unless `limit` is 0 and there is an event to read; then every round leaves it
  where it was (`EndsExactly`, `LimitZeroAsksAgain`). Its `end_id` ends the reading
  where that event is met, so in reverse it is a lower bound, and if no event has that id it bounds nothing
  (`EndEventCuts`). The page endpoint documents a limit from 1, the code accepts 0. A negative limit of the store's own
  search returns one event.
- The rate limiter reads the clock twice per call. For every setting the bound holds in a window exactly if the window is
  at most the configured one less the largest gap between the two readings (`WindowBoundExactly`, `SkewLosesTheBound`).
- The view takes the latest condensation that carries a summary, not simply the last condensation as its comment says.
- The index that loop detection reports counts in the filtered history, is found by comparing contents, and for an error
  loop is that of a fourth action before it if there is one. It is never too late but can be early
  (`StartNotPastLoop`, `StartIsLoopExactly`, `FilteredEventMakesItEarly`, `FourthActionMakesItEarly`).
- A recovery cuts by the last analysis made. As long as no new one is made, another recovery drops all that has been
  remembered since, the user's new instruction included (`StaleRecoveryDropsNews`); and detection keeps an old analysis
  when fewer than three events are left to look at (`StuckDetector.IsStuck`).

## Model

| member | source | states |
|---|---|---|
| CallSyntax.NormalizeIdempotent | openhands/llm/fn_call_converter.py:704-720 | normalising parameter tags twice is normalising them once, on every text |
| CallRoundTrip.NormalizeBody | openhands/llm/fn_call_converter.py:704-720 | what normalisation does to a printed body: only a malformed tag at the end of a value is rewritten |
| CallRoundTrip.FindBody | openhands/llm/fn_call_converter.py:397-399 | the lazy parameter pattern finds in a printed body exactly its parameters, in order |
| CallRoundTrip.FullTextExact | openhands/llm/fn_call_converter.py:405-432 | a printed call is parsed back as it was if and only if every value survives |
| CallRoundTrip.TruncatedExact | openhands/llm/fn_call_converter.py:694-701 | the same for the text cut before the stop word or inside it, if and only if in addition no value opens a call |
| CallRoundTrip.MalformedValueIsLost | openhands/llm/fn_call_converter.py:704-720 | a concrete value without any closing marker that does not come back |
| SyntaxMeaning.MatchExactly | openhands/llm/fn_call_converter.py:398 | on any text, a call is matched where the text has an opening with a name, a line end, and the first closing after it |
| SyntaxMeaning.LeftmostCall | openhands/llm/fn_call_converter.py:845 | the call found is the leftmost one, and none is found if and only if there is none anywhere |
| SyntaxMeaning.FixExactly | openhands/llm/fn_call_converter.py:694-701 | a text that opens exactly one call gets what is missing of its end, and no other text is touched |
| SyntaxMeaning.ParamsLeftToRight | openhands/llm/fn_call_converter.py:887 | the parameters found are the matches from left to right, each search beginning after the last match |
| SyntaxMeaning.FirstTagPutRight | openhands/llm/fn_call_converter.py:704-720 | the first malformed tag of any text is put right and the rest is gone through after it |
| Decimal.ParsePrintedInt | openhands/llm/fn_call_converter.py:651-657 | integers survive printing and conversion |
| Decimal.DigitsExactly | openhands/llm/fn_call_converter.py:651-657 | what is read as a number: digits with single underscores between them |
| Decimal.BlanksAround | openhands/llm/fn_call_converter.py:651-657 | blanks around a number do not matter, and blanks alone are no number |
| FnConverter.ConvertToText | openhands/llm/fn_call_converter.py:474-615 | the loop over messages, with all its errors, computes the specified conversion to text |
| FnConverter.ConvertToCalls | openhands/llm/fn_call_converter.py:723-926 | the loop back, with call counter, example removal and validation, computes the specified conversion |
| FnMeaning.CallReadExactly | openhands/llm/fn_call_converter.py:842-910 | an assistant text that holds a call is read as one if and only if the tool is known, every parameter given is one of its properties, integers parse, choices hold, and every required parameter is given |
| FnMeaning.CallReadAs | openhands/llm/fn_call_converter.py:876-910 | what it is read as: one call of that function with the value of the last text given for each parameter and no other argument |
| FnMeaning.CollectExactly | openhands/llm/fn_call_converter.py:618-691 | parameters are collected without error if and only if each one given is accepted and each required one is given |
| FnMeaning.MissingParameterIsRefused | openhands/llm/fn_call_converter.py:685-690 | a shell call without its command is refused |
| FnMeaning.UserReadExactly | openhands/llm/fn_call_converter.py:757-840 | a user text that holds a tool result comes back as a tool message with its text stripped and the id of the latest call, any other as it is |
| FnMeaning.WithoutExampleExactly | openhands/llm/fn_call_converter.py:757-770 | the example is taken from the front of the first user text, and its closing where that first stands |
| FnMeaning.SystemReadExactly | openhands/llm/fn_call_converter.py:744-752 | a system text is cut before the tool description, wherever that begins |
| FnMeaning.ToCallsExactly | openhands/llm/fn_call_converter.py:723-926 | a conversation is read back if and only if each of its messages can be |
| FnMeaning.ToTextExactly | openhands/llm/fn_call_converter.py:474-615 | a conversation is converted to text if and only if each message has a text form, and then message by message to exactly that text |
| FnMeaning.WrittenAt | openhands/llm/fn_call_converter.py:495-560 | the tools are described after every system text, and the example is put around the first user text only |
| FnRoundTrip.RoundTrip | openhands/llm/fn_call_converter.py:474-615 | a good conversation converts without error and comes back with the same roles, texts, functions and arguments |
| FnRoundTrip.TruncatedReply | openhands/llm/fn_call_converter.py:842-910 | a reply cut at the stop word is read as the whole reply |
| FnRoundTrip.FreshIds | openhands/llm/fn_call_converter.py:882-890 | the calls that come back carry pairwise distinct ids |
| FnRoundTrip.ResultCarriesCallId | openhands/llm/fn_call_converter.py:807-835 | a tool message carries the id of the latest call before it |
| MultiCallSplit.SplitCalls | openhands/llm/fn_call_converter.py:929-972 | the loop with its dictionary of waiting calls computes the specified split and its three errors |
| MultiCallSplit.CallsBesideResults | openhands/llm/fn_call_converter.py:935-961 | every output assistant message has at most one call, and each split-off call is followed at once by its own result |
| MultiCallSplit.OthersKeepOrder | openhands/llm/fn_call_converter.py:935-961 | all other messages, tool results included, keep their order |
| MultiCallSplit.CallsConserved | openhands/llm/fn_call_converter.py:929-972 | on success the multiset of calls is unchanged if and only if no call was put under a waiting id |
| MultiCallSplit.DistinctIdsNeverClash | openhands/llm/fn_call_converter.py:940-952 | distinct ids rule that out |
| MultiCallSplit.OutputExactly | openhands/llm/fn_call_converter.py:929-972 | in what is put out no message has more than one call, and the messages that were not split up stand in their order, with each split-off call directly before the result that carries its id |
| MultiCallSplit.OutputConserved | openhands/llm/fn_call_converter.py:929-972 | what is put out are exactly the messages not split up and those the others are split into, each once, if and only if no call was put under a waiting id |
| MultiCallSplit.EntriesSay | openhands/llm/fn_call_converter.py:940-952 | of the messages a multi-call message is split into, each has one call under its id and the first alone keeps the text |
| MultiCallSplit.RefusedExactly | openhands/llm/fn_call_converter.py:935-967 | which message makes the split fail, and how |
| PagedEvents.EventStore.constructor | openhands/events/event_store.py:44-51 | a new store with no id computed yet |
| PagedEvents.EventStore.CalculateCurId | openhands/events/event_store.py:65-83 | the result is one past the largest id of the listed files |
| PagedEvents.EventStore.CurId | openhands/events/event_store.py:53-58 | the id is computed once and kept |
| PagedEvents.EventStore.SearchEvents | openhands/events/event_store.py:107-136 | the loop that reuses the page in hand returns exactly the wanted events found index by index, in order, cut at the limit |
| PagedEvents.EventStore.Search | openhands/events/event_store.py:85-136 | the same as called, with an inclusive end id or the current id |
| PagedEvents.ReverseSearch | openhands/events/event_store.py:112-120 | before the limit, the reverse search is the reversal of the forward one |
| PagedEvents.HitsExactly | openhands/events/event_store.py:122-136 | an event is found if and only if a look-up of one of the indexes gives it and it is wanted |
| PagedEvents.LookupExactly | openhands/events/event_store.py:161-175 | an event is looked for on the aligned page that covers its index, and otherwise in its own file |
| PagedEvents.LimitExactly | openhands/events/event_store.py:122-136 | what no limit, 0, a positive and a negative limit return |
| EventStream.EventStream.constructor | openhands/events/stream.py:56-69 | a stream opened on existing files continues at the given id with an empty page |
| EventStream.EventStream.TakeEventId | openhands/events/stream.py:170-184 | the locked part: the id, the place on the write page, a new page if this one is full |
| EventStream.EventStream.StoreCachePage | openhands/events/stream.py:205-213 | a full page is stored under its own first id, any other is not |
| EventStream.EventStream.AddEvent | openhands/events/stream.py:163-203 | an event with an id is refused and nothing changes; otherwise the whole new state |
| EventStream.AloneIsARun | openhands/events/stream.py:163-203 | the interleaved pieces taken by one writer alone are exactly that method |
| EventStream.Reachable | openhands/events/stream.py:163-213 | the invariant holds in every state any number of writers can reach, with clean restarts |
| EventStream.PagesHoldTheLog | openhands/events/stream.py:205-213 | in every reachable state every stored page holds exactly the events its key names, in id order |
| EventStream.ReadersSeeTheLog | openhands/events/event_store.py:161-175 | a reader never finds another event in the place of the one asked for, even with adds in flight |
| EventStream.SearchReadsTheFiles | openhands/events/event_store.py:85-136 | when all adds have finished every search gives what reading the files one by one gives |
| EventStream.SearchGivesTheLog | openhands/events/event_store.py:85-136 | when all adds have finished a forward search without limit gives exactly the wanted events of the log with ids in the range, in order, the first one included |
| WritePages.FilledPagesAreStored | openhands/events/stream.py:176-213 | when all adds have finished, every page that has been filled is in the cache |
| WritePages.AlignedPagesAreStored | openhands/events/stream.py:176-213 | in a stream opened once the cache then holds every aligned page the log has filled, with its events |
| EventStream.QueuedExactlyOnce | openhands/events/stream.py:163-203 | with no add in flight every event was queued exactly once, each writer's events in id order |
| EventStream.IdsNeverReused | openhands/events/stream.py:170-173 | ids are consecutive and never given again over a run with clean restarts |
| EventStream.RestartContinues | openhands/events/event_store.py:65-83 | reopening at any moment continues with the next id if and only if the last event's file is there |
| EventStream.UncleanRestartReusesAnId | openhands/events/stream.py:163-203 | a concrete run after which a restart gives an id a second time |
| EventDelivery.EventQueue.constructor | openhands/events/stream.py:56-69 | no subscriber, nothing queued |
| EventDelivery.EventQueue.Put | openhands/events/stream.py:203 | the event is queued last |
| EventDelivery.EventQueue.Subscribe | openhands/events/stream.py:130-148 | a new callback starts with the events not yet taken; a taken callback id is an error and changes nothing |
| EventDelivery.EventQueue.Unsubscribe | openhands/events/stream.py:150-161 | the callback is gone; an unknown one changes nothing |
| EventDelivery.EventQueue.ProcessNext | openhands/events/stream.py:254-275 | one round gives the next event to every callback, once |
| EventDelivery.RoundIsARun | openhands/events/stream.py:254-275 | that round is a run of the interleaved steps, whatever the order of the callbacks |
| EventDelivery.DeliveredInOrder | openhands/events/stream.py:254-275 | a callback has been given a gapless stretch of the queue, in order, from its subscription to the event being handed out |
| EventDelivery.SubscriptionPersists | openhands/events/stream.py:130-148 | while it stays subscribed that starting point does not move and nothing given is taken back |
| EventDelivery.UnsubscribedExactly | openhands/events/stream.py:130-161 | a callback taken out is given nothing more in any run until it is subscribed again, and then begins with what is not yet handed out; all others keep theirs |
| EventDelivery.RunsNext | openhands/events/stream.py:254-275 | a worker runs what it was given one event after the other, and nobody else notices |
| StreamDelivery.Reachable | openhands/events/stream.py:163-275 | in every interleaving of writers, queue thread and workers both invariants hold over the one queue |
| StreamDelivery.GivenInWriterOrder | openhands/events/stream.py:163-275 | at any moment a callback has been given no event twice, and each writer's events in id order |
| StreamDelivery.GivenExactlyOnce | openhands/events/stream.py:163-275 | with no add in flight and all handed out, a callback subscribed from the start has been given every writer's events exactly once |
| StreamDelivery.SubscriptionPersists | openhands/events/stream.py:130-161 | whatever the writers do, a callback that stays subscribed keeps its starting point |
| NestedEvents.PageOf | openhands/server/routes/conversation.py:203-265 | the page endpoint returns the first events of the range and says there are more exactly when there are |
| NestedEvents.ReadPage | openhands/events/nested_event_store.py:56-76 | reading one page: what it yields, what is left of the limit, whether the reading ends there, the cursors for the next request |
| NestedEvents.PageYields | openhands/events/nested_event_store.py:56-76 | what a page yields is what is wanted of it, and unless the reading ends there the rest is still to come |
| NestedEvents.Ask | openhands/events/nested_event_store.py:35-85 | the body of the loop is one round: stop with a result or an error, or go on with new cursors |
| NestedEvents.RoundOnTrack | openhands/events/nested_event_store.py:78-85 | the new cursors lead to exactly what lies beyond the page, which is less than before |
| NestedEvents.SearchEvents | openhands/events/nested_event_store.py:23-85 | the pagination loop ends and yields each wanted event once, in order, up to the end event and the limit |
| NestedEvents.RemoteIsLocal | openhands/events/nested_event_store.py:23-85 | without end id it returns what a search of the store itself returns, forward and reverse |
| NestedEvents.EndEventCuts | openhands/events/nested_event_store.py:66-69 | what the end id means in each direction, and that it means nothing if no such event is met |
| NestedEvents.LimitZeroAsksAgain | openhands/events/nested_event_store.py:44-45 | with limit 0 and an event to read, any number of rounds finds nothing and leaves the client where it was |
| NestedEvents.EndsExactly | openhands/events/nested_event_store.py:35-85 | the client comes to an end if and only if the limit is not 0 or there is no event to read |
| NestedEvents.StreamIsSound | openhands/events/stream.py:163-213 | every reachable state of the stream is a server this client may read |
| NestedEvents.LimitsExactly | openhands/events/nested_event_store.py:44-45 | the client asks for at most 100 and gets 20 if it does not say; the server refuses what is below 0 or above 100 |
| ConversationMemory.CollectResults | openhands/memory/conversation_memory.py:184-187 | taking the results of one message's calls out of the dictionary |
| ConversationMemory.CheckPending | openhands/memory/conversation_memory.py:167-191 | the check of the waiting messages after an event |
| ConversationMemory.ProcessEvents | openhands/memory/conversation_memory.py:116-206 | the whole processing, its errors, and the changes it leaves in the history |
| MessageTexts.EveryMessageIsOfAnEvent | openhands/memory/conversation_memory.py:146-194 | what an event adds: its own message, then messages with the text and calls of the latest answer under their response id, and tool messages with the text and id of the latest observation of their call |
| MessageTexts.ToolTextsAreObserved | openhands/memory/conversation_memory.py:714-718 | in every history, each tool message has the text and the call id of an observation, the latest of that call when it was placed, and each message with calls has those and the text of an answer of the model |
| MessageTexts.SentTextsAreObserved | openhands/memory/conversation_memory.py:196-206 | so has every tool message that is sent |
| MessageTexts.OwnSay | openhands/memory/conversation_memory.py:313-384 | which events say something for themselves, in whose name, and what |
| MessageTexts.FinishSays | openhands/memory/conversation_memory.py:313-343 | a finishing action says its thought and then what its response says, but nothing twice, and is left in the history with that text |
| MessageTexts.FailsOnlyFor | openhands/memory/conversation_memory.py:146-194 | each error of the processing has its cause in the history |
| MessageTexts.FailsFor | openhands/memory/conversation_memory.py:146-194 | an action without metadata, an unknown event and an answer without calls make it fail |
| MessageTexts.PreparedExactly | openhands/memory/conversation_memory.py:846-905 | when a system message and the initial instruction are inserted, and where |
| MessageTexts.FilterExactly | openhands/memory/conversation_memory.py:791-844 | for any messages, the filter keeps, in order, exactly the results whose call is there and the calls whose result is there, and all other messages |
| MessageTexts.FormattedExactly | openhands/memory/conversation_memory.py:208-223 | an empty line goes before a user message that follows another, and nowhere else |
| ToolCallPairs.CallsBesideResults | openhands/memory/conversation_memory.py:146-194 | for every history, an assistant message with calls is followed at once by exactly its results in call order, and there are no other tool messages |
| ToolCallPairs.FilterChangesNothing | openhands/memory/conversation_memory.py:791-844 | on such messages the final filter changes nothing if and only if all call ids are non-empty |
| ToolCallPairs.FormatKeepsBlocks | openhands/memory/conversation_memory.py:208-223 | the final formatting changes texts of user messages only |
| ToolCallPairs.SentMessages | openhands/memory/conversation_memory.py:196-206 | the messages that are sent have that shape |
| ToolCallPairs.PlainKeepOrder | openhands/memory/conversation_memory.py:151-194 | leaving out calls and results, the messages are those of the events in event order |
| ToolCallPairs.ProcessingIsRepeatable | openhands/memory/conversation_memory.py:846-905 | the history a call leaves behind, with its insertions and rewritten thoughts, gives the same messages again |
| CompleteCalls.RepeatedIdFails | openhands/memory/conversation_memory.py:178-187 | placing a complete message fails if and only if it repeats a call id |
| CompleteCalls.PlacedExactlyOnce | openhands/memory/conversation_memory.py:299-312 | a well-formed history is processed without error, and a response acted on is placed once if all its calls were observed and never otherwise |
| View.FromEvents | openhands/memory/view.py:48-93 | the loops and scans compute the specified view |
| View.ForgottenExactly | openhands/memory/view.py:51-58 | an id is forgotten if and only if a condensation names it or it is that of a condensation or a request |
| View.LatestSummaryIs | openhands/memory/view.py:62-72 | the summary that counts is that of a condensation after which none carries one |
| View.ViewIs | openhands/memory/view.py:48-76 | the view is the history without forgotten events and condensations, in order, with at most one summary, the latest, at its clamped offset |
| View.SummaryStandsAt | openhands/memory/view.py:74-80 | where the summary stands: at its offset, counted from the end if negative, at the nearer end if there is no such place |
| View.SeenExactly | openhands/memory/view.py:51-60 | an event is in the view if and only if it is neither a condensation nor a request and no condensation names it |
| View.ForgottenForGood | openhands/memory/view.py:51-60 | an event once forgotten is in no view of a longer history |
| View.NewEventComesLast | openhands/memory/view.py:62-80 | an ordinary new event is added at the end of the view if and only if the summary's offset is in range |
| View.UnhandledExactly | openhands/memory/view.py:82-93 | a request counts as unhandled if and only if no condensation comes after the latest one |
| Controller.AgentController.constructor | openhands/controller/agent_controller.py:117-180 | a controller that has seen and published nothing; from here on every method keeps the pending action the event published under its id |
| Controller.AgentController.AddEvent | openhands/events/stream.py:163-203 | the event is published under the next id |
| Controller.AgentController.Reset | openhands/controller/agent_controller.py:622-661 | the pending action is forgotten, and an observation with its metadata is in the history or has just been published |
| Controller.AgentController.SetAgentStateTo | openhands/controller/agent_controller.py:663-715 | the whole effect of a change of state: reset, stamped republication under a new id, announcement |
| Controller.AgentController.HandleObservation | openhands/controller/agent_controller.py:532-560 | which observation ends the pending action, and what follows |
| Controller.AgentController.HandleUserMessage | openhands/controller/agent_controller.py:562-596 | a user message puts a recall in place of the pending action and starts the agent |
| Controller.AgentController.TruncateMemory | openhands/controller/agent_controller.py:1314-1335 | the history is cut at the point if that is inside it |
| Controller.AgentController.HandleLoopRecovery | openhands/controller/agent_controller.py:603-620 | the three recovery options |
| Controller.AgentController.HandleEvent | openhands/controller/agent_controller.py:505-560 | which handler an event gets |
| Controller.AgentController.PublishAction | openhands/controller/agent_controller.py:970-1024 | a runnable action becomes pending under the id it is published with, after the state in which it waits |
| Controller.AgentController.Step | openhands/controller/agent_controller.py:853-1024 | when the agent is asked, what is published, and whether it waits for confirmation |
| Controller.AgentController.HandleStreamEvent | openhands/controller/agent_controller.py:478-503 | history, handling and the decision to step |
| ControlMeaning.CommandsWaitExactly | openhands/controller/agent_controller.py:970-1024 | a shell command or cell is published to wait, and does not run, if and only if the conversation is in confirmation mode and the command line is used, or confirmation is on and the risk is high, or unknown without an analyzer; otherwise it is published to run at once |
| ControlMeaning.EditsWaitInVain | openhands/controller/agent_controller.py:970-1024 | in the same settings file edits, reads and browser actions make the controller wait, but what is published runs |
| ControlMeaning.OthersNeverWait | openhands/controller/agent_controller.py:970-1024 | opening a page and calling a tool server never wait |
| ControlMeaning.AskedExactly | openhands/controller/agent_controller.py:403-503 | after which events the agent is asked for its next action, and that hidden events do nothing |
| ControlMeaning.OutcomesExactly | openhands/controller/agent_controller.py:889-968 | what being stuck, a failure, a rate limit, no balance, a malformed answer and a full context publish, and the state each leads to |
| ControlMeaning.ActionsLeadTo | openhands/controller/agent_controller.py:505-530 | the states that actions lead to, and the actions that change nothing |
| ControlMeaning.ObservationsLeadTo | openhands/controller/agent_controller.py:532-560 | an observation matters only if it answers the pending action while the user is not waited for; what it leads to after a confirmation and after a refusal |
| ControlMeaning.RecoveryLeadsTo | openhands/controller/agent_controller.py:603-620 | what the three recovery options lead to, and that without an analysis none does anything |
| ControlMeaning.StoppingAnswers | openhands/controller/agent_controller.py:622-715 | stopping and errors leave nothing pending, and publish an observation for it unless the history has one |
| ControlMeaning.AnswersArePublished | openhands/controller/agent_controller.py:690-701 | what the user's answer publishes of the pending action: with the answer for commands and cells, without it for the others |
| ControlMeaning.ReplyAnswers | openhands/runtime/base.py:370-408 | what the runtime answers to the pending action names it, carries its metadata and ends it |
| ControlMeaning.RecallIsAnswered | openhands/memory/memory.py:90-132 | so does what the memory answers to a recall |
| ConfirmationRuns.Runtime.constructor | openhands/runtime/base.py:129-207 | nothing executed |
| ConfirmationRuns.Runtime.RunAction | openhands/runtime/base.py:972-1059 | waiting actions give nothing, refused ones a rejection, only the others are executed |
| ConfirmationRuns.Runtime.HandleAction | openhands/runtime/base.py:370-408 | the reply carries the id and the metadata of the action; a refused action gives a rejection observation and nothing else |
| ConfirmationRuns.Reachable | openhands/controller/agent_controller.py:663-715 | in every reachable state the pending action is the event published under its id, and the executions are those the events seen by the runtime call for |
| ConfirmationRuns.ExecutedExactly | openhands/controller/agent_controller.py:690-701 | in every run an action is executed at most as often as it was confirmed while pending, refused in vain, or published without waiting, and exactly that often once the runtime has caught up |
| ConfirmationRuns.UnaskedAtMostOnce | openhands/controller/agent_controller.py:970-1024 | an action is published without waiting at most once |
| ConfirmationRuns.UnaskedExactly | openhands/controller/agent_controller.py:970-1024 | an action is published without waiting if and only if the settings do not ask or it is neither a shell command nor a cell |
| ConfirmationRuns.ConfirmedBeforeExecuted | openhands/controller/agent_controller.py:970-1024 | a shell command or cell decided on when the settings ask for confirmation is executed at most as often as the user confirmed it while it was pending |
| ConfirmationRuns.HeldBackExactly | openhands/events/action/commands.py:27-51 | an action the settings make wait is held back if and only if it is a shell command or a cell; the others are published in a form that runs |
| ConfirmationRuns.EditRunsWhileWaiting | openhands/runtime/base.py:1038-1059 | a concrete run in which a file edit is executed while the controller waits for the user |
| ConfirmationRuns.PendingLeaves | openhands/controller/agent_controller.py:532-661 | a pending action goes only by an answer, a recall in its place, or a reset that leaves an observation with its metadata |
| ConfirmationRuns.OneAtATime | openhands/controller/agent_controller.py:853-870 | between two runnable actions of the agent one of these has happened |
| ConfirmationRuns.StaleRecoveryDropsNews | openhands/controller/agent_controller.py:603-620 | over a run without a new analysis, every recovery cuts the history back to exactly what stood before the loop when it was analysed |
| Stuck.StuckDetector.constructor | openhands/controller/stuck.py:34-36 | no analysis yet |
| Stuck.StuckDetector.IsStuck | openhands/controller/stuck.py:38-131 | the five scenarios in their order, and the analysis that is kept or dropped |
| Stuck.StuckDetector.FindLastUserMessage | openhands/controller/stuck.py:49-60 | one past the last user message |
| Stuck.StuckDetector.LastActionsAndResults | openhands/controller/stuck.py:87-97 | the loop from the end collects the last actions and observations |
| Stuck.StuckDetector.IsMonologue | openhands/controller/stuck.py:311-350 | three equal agent messages with no observation in between |
| Stuck.StuckDetector.FindContextLoop | openhands/controller/stuck.py:402-455 | the first two neighbouring condensations among the last ten |
| Stuck.SameIsSymmetric | openhands/controller/stuck.py:457-481 | the comparison is symmetric |
| Stuck.SameIsTransitive | openhands/controller/stuck.py:457-481 | the comparison is transitive |
| Stuck.SameAsItselfExactly | openhands/controller/stuck.py:457-481 | an event is the same as itself if and only if it is no edit of fewer than three lines |
| Stuck.ShortEditIsNotItself | openhands/controller/stuck.py:463-473 | two equal one-line edits that do not count as the same |
| Stuck.ComparedWithOne | openhands/controller/stuck.py:147-153 | events all compared with one of them are pairwise the same |
| Stuck.LastOnesAreLast | openhands/controller/stuck.py:82-97 | the positions collected are those of the last events of their kind |
| Stuck.RepeatedPairExactly | openhands/controller/stuck.py:133-164 | a repeated pair is found if and only if the last four actions are pairwise the same and so are the last four observations |
| StuckMeaning.RepeatedErrorExactly | openhands/controller/stuck.py:166-309 | a repeated error is found if and only if the last three actions are pairwise the same and the last three observations are all errors, or show the same one of three syntax errors on their lines |
| StuckMeaning.StuckExactly | openhands/controller/stuck.py:38-131 | the agent is found stuck if and only if one of the five patterns, said on the positions of the events looked at, is there; the first in order is reported |
| StuckMeaning.LookedAtExactly | openhands/controller/stuck.py:49-79 | which events of the history are looked at |
| StuckMeaning.SameExactly | openhands/controller/stuck.py:457-481 | when two events count as the same |
| StuckMeaning.LinesExactly | openhands/controller/stuck.py:463-473 | the lines of a text are the text cut at its line ends and only there |
| StuckMeaning.MonologueExactly | openhands/controller/stuck.py:311-350 | a monologue: the last three messages of the agent are equal with only actions from the first to the last |
| StuckMeaning.CondensationsExactly | openhands/controller/stuck.py:402-455 | a context loop: of the last ten condensations one directly follows another, the earliest such pair |
| StuckMeaning.ReportsError | openhands/controller/stuck.py:178-190 | for an error loop the first event equal to the fourth action from the end is reported, or to the third if there is none |
| Stuck.AlternatesExactly | openhands/controller/stuck.py:374-391 | the comparisons of the alternation pattern hold if and only if all events of the same parity are pairwise the same |
| Stuck.StartNotPastLoop | openhands/controller/stuck.py:156-161 | the reported index lies in the history and never after the first event of the loop |
| Stuck.RecoveryDropsTheLoop | openhands/controller/agent_controller.py:1293-1335 | truncating the analysed history or an extension of it makes it shorter and drops that event |
| Stuck.StartIsLoopExactly | openhands/controller/stuck.py:62-79 | for every history, the reported index is the position of the loop's first event if and only if every event up to it was looked at, no event before it has equal contents where the scenario searches by contents, and an error loop has no fourth action listed before it |
| Stuck.FilteredEventMakesItEarly | openhands/controller/stuck.py:67-79 | a history with one filtered event on which the index is early |
| Stuck.FourthActionMakesItEarly | openhands/controller/stuck.py:178-190 | a history with nothing filtered and no equal event before the loop on which the index is early all the same |
| BatchedMirror.BatchedWebHookFileStore.constructor | openhands/storage/batched_web_hook.py:47-84 | an empty buffer, with the default limit for none and for 0 |
| BatchedMirror.BatchedWebHookFileStore.Write | openhands/storage/batched_web_hook.py:86-94 | the write reaches the store and, through the buffer, the mirror; the account is right |
| BatchedMirror.BatchedWebHookFileStore.Delete | openhands/storage/batched_web_hook.py:118-125 | the same for a delete |
| BatchedMirror.BatchedWebHookFileStore.QueueUpdate | openhands/storage/batched_web_hook.py:127-177 | the coalesced batch, its size, the size limit and the restarted timer |
| BatchedMirror.BatchedWebHookFileStore.EnqueueBatch | openhands/storage/batched_web_hook.py:186-201 | the batch is handed over and the buffer reset |
| BatchedMirror.BatchedWebHookFileStore.EnqueueFromTimer | openhands/storage/batched_web_hook.py:179-184 | a timer that fires, even a stale one, hands the batch over and loses nothing |
| BatchedMirror.BatchedWebHookFileStore.Flush | openhands/storage/batched_web_hook.py:263-268 | after a flush the batches handed over suffice |
| BatchedMirror.CoalescingIsSound | openhands/storage/batched_web_hook.py:149-163 | replaying the updated batch is replaying the old one and then the update |
| BatchedMirror.UpsertSize | openhands/storage/batched_web_hook.py:149-160 | the size count changes by the difference of what the path held and holds |
| BatchedMirror.SizeExactly | openhands/storage/batched_web_hook.py:137-160 | a text counts with the bytes of its UTF-8 code, bytes with their number, a delete with nothing |
| BatchedMirror.QueuedExactly | openhands/storage/batched_web_hook.py:137-177 | an update that brings the batch to the limit hands it over; any other starts the only timer anew |
| BatchedMirror.FiredExactly | openhands/storage/batched_web_hook.py:179-184 | a timer that has run out hands over all that waits once, and no timer is left counting down |
| BatchedMirror.RetryChangesNothing | openhands/storage/batched_web_hook.py:216-261 | sending a batch again at once changes nothing |
| BatchedMirror.OrderMattersExactly | openhands/storage/batched_web_hook.py:193-197 | two batches may arrive in either order if and only if they leave every path they share alike |
| MirrorRuns.AlwaysAccounted | openhands/storage/batched_web_hook.py:137-201 | in every reachable state with the lock free the size is right and below the limit, and a timer is armed exactly when something waits |
| MirrorRuns.MirrorExact | openhands/storage/batched_web_hook.py:86-94 | over any interleaving the mirror equals the store if and only if, path by path, the last queued update has the effect of the last change |
| MirrorRuns.MirrorFollows | openhands/storage/batched_web_hook.py:118-177 | it does when operations on one path never overlap and none is in flight |
| MirrorRuns.FlushedMirrorFollows | openhands/storage/batched_web_hook.py:263-268 | then after a flush the batches handed over suffice |
| MirrorRuns.OverlapDiverges | openhands/storage/batched_web_hook.py:86-94 | a concrete run of two writers on one path after which they differ |
| RateLimiter.InMemoryRateLimiter.constructor | openhands/server/middleware.py:76-81 | no history |
| RateLimiter.InMemoryRateLimiter.CleanOldRequests | openhands/server/middleware.py:83-86 | exactly the times after the cutoff are kept, for this key only |
| RateLimiter.InMemoryRateLimiter.Admit | openhands/server/middleware.py:88-105 | when a request passes and when it sleeps; other keys are untouched |
| RateLimiter.PassesExactly | openhands/server/middleware.py:88-105 | over a whole run, a request passes if and only if it and the requests of its key in the window before it, refused ones included, keep the limit |
| RateLimiter.WindowBound | openhands/server/middleware.py:83-105 | no window of the configured length less the clock gap holds more admitted requests of a key than the limit |
| RateLimiter.WindowBoundExactly | openhands/server/middleware.py:83-105 | for every setting, window and clock gap: all runs keep the limit in the window if and only if it is at most the configured one less the gap (or holds no time, or nothing ever passes) |
| RateLimiter.WindowBoundBySetting | openhands/server/middleware.py:97-105 | twice the requests in any window, and the requests alone when nobody sleeps |
| RateLimiter.BurstAdmitted | openhands/server/middleware.py:97-105 | the bound is reached |
| RateLimiter.BurstExactly | openhands/server/middleware.py:88-105 | of any burst exactly so many are let through: twice the requests, or the requests when nobody sleeps |
| RateLimiter.SkewLosesTheBound | openhands/server/middleware.py:83-91 | a concrete run with two clock readings that exceeds the bound on the full window |

## Left out

- FnConverter.ConvertToText: message contents are strings; contents that are lists of items, cache-control marks, and arguments other than strings and integers (arrays, objects) are not modelled.
- FnConverter.ConvertToCalls: message contents are strings and parameters strings or integers; list contents and the `array` type, whose text is read as JSON, are not modelled.
- The texts of the tool description and of the worked example: parameters of the model, with the conditions on them stated in `GoodConversation`.
- `int()` on digits outside ASCII or longer than Python's conversion limit; lone surrogates in strings, which Python cannot encode.
- FnRoundTrip.RoundTrip: texts beside a call and tool results come back stripped, as the code strips them, so it promises the stripped texts.
- EventStream.Reachable: a restart happens only when no add is in flight; what happens otherwise is stated by RestartContinues. Serialisation is an opaque body carried with the id; secret replacement and the size warning are not modelled.
- EventStream.SearchReadsTheFiles: a shutdown during a search (`should_continue`) is not modelled.
- StreamDelivery.Reachable: one opening of the stream, from an empty store; reopening, which starts with an empty queue and no subscribers, is in EventStream.
- EventDelivery.DeliveredInOrder: errors in callbacks, closing the stream and the moment inside `subscribe` at which the callback is registered and its worker is not are not modelled.
- NestedEvents.SearchEvents: the server does not change while the pages are read, and the limit is not 0 when there are events; that the client does not end then is LimitZeroAsksAgain. Filters are predicates on events.
- ConversationMemory.ProcessEvents: texts are opaque; images, truncation, templates, disabled microagents and the choice of recalled knowledge are not modelled, only which events give a message of their own. A response's role is always assistant.
- ConfirmationRuns.ExecutedExactly: delegates, control limits, metrics, replay and the security analyzer are free choices of the environment; the controller handles one event at a time, and a change of state from outside does not fall inside a handler. Timeouts of actions are not modelled.
- ConfirmationRuns.OneAtATime: ends of delegates, which publish an observation of their own, are not modelled.
- Stuck.StuckDetector.IsStuck: event fields that Python compares are one opaque text per class, apart from the code of a cell, the command and exit code of a shell result and the text of a cell result.
- BatchedMirror.BatchedWebHookFileStore.Write: deletes remove one exact path, the payload encodings (UTF-8 or base64) and failing requests are not modelled; the mirror receives contents as they are.
- MirrorRuns.MirrorFollows: batches are carried out in the order they were handed over; when another order is as good is stated by OrderMattersExactly.
- RateLimiter.WindowBound: times are arrival times; a request that sleeps leaves later. The clock never goes back.
- The user interface, the language-model clients, retries, git providers, containers, real file stores, token counting and pricing: none of their code is modelled.
