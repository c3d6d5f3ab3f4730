# JARVIS core logic in Dafny

This project models the stateful core of the JARVIS operations agent and proves what its
parts keep over every input and every run. Code that changes objects in place is modelled
by classes and methods; each method is tied by its `ensures` to a function on values, and
the theorems are about those functions, about all their inputs and all runs built from
them. Clocks, identifiers, tokens, model replies, commands and health checks are parameters
and may take any value.

| part | modules | original |
|---|---|---|
| command templates: validation and substitution | `Text`, `Template`, `Validation`, `FactoryPolicy`, `CommandBuilder` | `app/tool_factory/validation.py`, `execution.py` |
| output truncation on UTF-8 (section 3 of RFC 3629) | `Utf8`, `Redaction` | `app/tool_factory/redaction.py` |
| tool lifecycle, activation history, rollback, execution | `ToolLifecycle`, `ToolHistory`, `ToolRuns`, `ToolFactory`, `ToolExecution` | `app/tool_factory/service.py`, `repository.py`, `execution.py` |
| sliding-window limiter | `RateLimiter` | `app/api/app.py` |
| prompt bounding and the tool loop | `ContextBudget`, `AgentLoop`, `PromptPairing` | `app/context_budget.py`, `app/agent.py` |
| provider failover | `Router`, `Failover` | `app/llm_router.py` |
| incident engine | `Monitoring`, `MonitoringRuns`, `MonitoringEngine` | `app/monitoring/` |
| action flow with approval, verification, rollback | `Control`, `ControlRuns` | `app/control/` |
| project listing | `ProjectTree`, `ProjectTreeFlag` | `app/project_intelligence.py` |
| memory consolidation | `Consolidation`, `ConsolidationStore`, `ConsolidationRuns` | `app/memory/` |
| worker enrollment | `ControlPlane`, `ControlPlaneRuns` | `app/control_plane/service.py` |
| file editor | `EditorNames`, `EditorText`, `Editor`, `EditorRuns` | `scripts/edit.py` |

`dafny verify dfyconfig.toml` checks the whole project.

## Where the code differs from what it says

Some promised properties do not hold of the code as it stands. The model follows the code;
each property is stated with the exact condition under which it holds, beside a failing
case.

- `service.py:214` takes the activation history to be newest first. The PostgreSQL adapter
  delivers that (at most 100 records), the in-memory adapter delivers insertion order, and
  a rollback there goes back to the earliest other version
  (`ToolHistory.InsertionOrderRollback`, `ToolHistory.ThreeVersionsInsertionOrder`). A
  version with the empty name counts as none.
- A new version of an active tool is said to wait for its activation
  (`service.py:128-134`), but its definition is stored and executed at once
  (`ToolExecution.NewVersionRunsAtOnce`), and it is stored even when the limit of 50
  versions then refuses the version record. No activation or rollback restores an earlier
  definition (`ToolExecution.BodyIsTheLastStored`); what was approved is what runs exactly
  when no other definition was stored since (`ToolRuns.ApprovedBodyRunsIff`).
- A rejected tool becomes executable again without a new approval exactly while an active
  version is on record: by an enabling, or by a deactivation and an activation
  (`ToolRuns.RejectionHoldsIff`, `ToolRuns.RejectedBecomesActive`,
  `ToolRuns.DeactivatingLiftsRejection`, `ToolRuns.RejectedWhileActive`).
- The rule on subcommands looks at the template only: a placeholder before the template's own
  subcommand can bring in another one (`CommandBuilder.SubcommandKeptIff`,
  `FactoryPolicy.SubcommandEvaded`, `FactoryPolicy.ExecEvades`); what the command whitelist
  then says is a parameter here.
- A text whose first character does not fit the byte budget is kept whole
  (`Redaction.BudgetKeptIffFirstFits`, `Redaction.SmallBudgetKeepsAll`).
- The argument pattern lets one final line feed through; the final check then refuses the
  command (`CommandBuilder.FinalCheckFires`, `Validation.FinalLineFeedPasses`).
- `bound_history` keeps its message limit only if the limit leaves room beside the system
  message (`ContextBudget.MessageLimitKept`, `ContextBudget.LimitOfOneIsExceeded`). A
  conversation that does not start with a system message can lose newer messages to a later
  one that is pinned
  (`ContextBudget.LongestRecentPartIff`, `ContextBudget.LaterSystemMessageIsPinned`). The
  cut can also fall between a call and its results, which `agent.py:252-257` says must
  follow the call (`PromptPairing.PromptPairedIff`, `PromptPairing.ResultLosesItsCall`).
- An immediate restart that shares a reply with other runnable calls makes the merge run out
  of results, possibly after giving its result to another call
  (`AgentLoop.RestartAloneOrRaised`, `AgentLoop.RestartMisattributed`).
- `llm_router.py:328-330` says that a late provider's failure will still be recorded; it is
  recorded exactly when no answer came before it (`Failover.LateFailuresAreLost`,
  `Failover.LateFailureIsLost`).
- `permissions.py:92-94` wants every write action confirmed by the operator, but a rollback,
  which restarts the component once more, is sent without asking: exactly when a verified
  entry fails its verification (`ControlRuns.AllApprovedIff`,
  `ControlRuns.RollbackGoesUnasked`; `rollback.py:162-168` means it so for rollbacks of low
  risk).
- Outside the immediate mode the control loop never acts, since an inferred hypothesis
  reaches a confidence of 0.25 and the gate is 0.5 (`ControlRuns.OnlyImmediateRunsAct`); the
  verification path is proved on the flow itself. The branches for an unavailable or unsafe
  rollback cannot be reached from the flow.
- The project listing's `truncated` flag can be clear on an incomplete listing and set on a
  complete one (`ProjectTreeFlag.FilesAreNeverTruncated`, `ProjectTreeFlag.TruncatedYetComplete`);
  `ProjectTreeFlag.TruncatedIff` says exactly when it is set, `ProjectTreeFlag.CompleteIff` exactly
  when the listing is complete.
- Consolidation leaves no two active memories with one key along every run of the repository
  (`ConsolidationRuns.RunKeysDiffer`). For rows whose title or content is not what
  redaction leaves of it (written past the repository, or under an earlier list of
  patterns) it can, and `Consolidation.ActiveKeysDifferIff` says when (`ConsolidationRuns.RedactionCanJoinKeys`).
- A machine with several workers names the last one but shows the report of any of them
  (`ControlPlaneRuns.HeartbeatMirrorsIff`, `ControlPlaneRuns.OlderWorkerIsShown`).
- The editor asks for exactly one match but counts overlapping occurrences once
  (`EditorText.OverlapIsNotNoticed`); an undo can restore a sibling file's text, exactly when
  the sibling's name ends with `_` and this one's, or this name is the sibling's behind a
  number and `_`, which the counter of `backup_file` can write (`EditorRuns.RestoresOwnIff`,
  `EditorRuns.SiblingIsRestored`, `EditorRuns.UndoTakesTheSibling`); it is never
  possible for files named `*.undone` (`Editor.NeverUndone`), cannot bring back a text with a
  NUL (`Editor.UndoTwiceIff`, `Editor.NulIsLost`), and never reaches beyond the last two texts
  (`Editor.UndosAlternate`).

## Model

| member | source | states |
|---|---|---|
| Template.ReplacingIsFilling | app/tool_factory/execution.py:148-158 | for a template without stray braces and brace-free values, replacing the listed slots one name after another, repetitions included, gives the simultaneous substitution of all of them |
| Template.FillKeepsWords | app/tool_factory/execution.py:141-162 | values without white space neither add, drop, split nor join words: the words of the filled text are the filled words of the template |
| Template.StrayBraceBreaksFilling | app/tool_factory/validation.py:111-116 | with a literal brace in the template the agreement fails: the first replacement makes a slot that the second one fills (why the masked scan must refuse braces) |
| Validation.ValidateCommandTemplate | app/tool_factory/validation.py:103-149 | an issue is reported exactly when the template breaks that rule, so none is exactly when every rule holds; blank or non-text templates get the one issue for an empty template |
| Validation.NoIssues | app/tool_factory/validation.py:103-149 | a stripped template breaks none of the rules the issues stand for if and only if it is a valid template |
| Validation.AcceptedValue | app/tool_factory/validation.py:241-256 | an accepted value is not empty, holds no brace and no shell character, and no white space except possibly one final line feed, which the `$` of the value pattern lets through |
| Validation.FinalLineFeedPasses | app/tool_factory/validation.py:241-256 | the failing input: a letter followed by a line feed is accepted as a value and holds a character the final check forbids |
| FactoryPolicy.ShippedBinariesArePlain | app/tool_factory/validation.py:17-69 | the shipped table of binaries satisfies what the command theorems require of a policy |
| CommandBuilder.BuildCommand | app/tool_factory/execution.py:141-162 | the loop fails with the first missing or unsafe argument in template order, else with the final character check, else returns the substituted template |
| CommandBuilder.AcceptedTemplate | app/tool_factory/validation.py:103-149 | in an accepted template only outer white space can hold a character the final check forbids; the stripped text decides placeholders and words |
| CommandBuilder.SubstitutionIsSimultaneous | app/tool_factory/execution.py:148-158 | for every accepted template and accepted arguments the one-at-a-time replacement equals the simultaneous substitution |
| CommandBuilder.FinalCheckFires | app/tool_factory/execution.py:159-161 | the final character check fires if and only if the stored template has a line break or tab (outer white space) or a used value ends with a line feed |
| CommandBuilder.BuiltCommand | app/tool_factory/execution.py:141-162 | a built command has as many words as the template, in the same order, each the filled template word, and its first word is the template's allowed binary |
| CommandBuilder.SubcommandKeptIff | app/tool_factory/validation.py:131-138 | a built command keeps to the binary's allowed subcommands if and only if it has no list, or the first argument, other than a flag, for a placeholder before the template's own subcommand is an allowed subcommand |
| FactoryPolicy.SubcommandEvaded | app/tool_factory/validation.py:131-138 | the failing family: a template of a binary and one placeholder is accepted under any list of subcommands, and the built command carries any word as its subcommand |
| FactoryPolicy.ExecEvades | app/tool_factory/validation.py:24-41 | the failing input with the shipped table: `docker {{cmd}}` is accepted, and with `exec` the command built is `docker exec`, which the rule refuses |
| FactoryPolicy.ShippedSubcommandsArePlain | app/tool_factory/validation.py:24-41 | no shipped subcommand holds a brace, as the subcommand theorem requires |
| Utf8.DecodeInvertsEncode | app/tool_factory/redaction.py:39-49 | decoding inverts encoding on every text of scalar values |
| Utf8.EncodeInvertsDecode | app/tool_factory/redaction.py:43-49 | encoding inverts decoding on every byte string the strict decoder accepts |
| Utf8.EncodingPrefix | app/tool_factory/redaction.py:43-49 | if the encoding of one text is a byte prefix of another's, the first text is a prefix of the second |
| Redaction.Truncate | app/tool_factory/redaction.py:39-51 | the cut loop keeps exactly the longest prefix of whole code points that fits the budget and backs off at most three bytes, when the first code point fits; otherwise it keeps the whole text; the marker follows |
| Redaction.FittingIsLongest | app/tool_factory/redaction.py:39-49 | the kept prefix fits the budget and no longer prefix does |
| Redaction.UnusedBytes | app/tool_factory/redaction.py:43-49 | the bytes left unused are fewer than the next character needs |
| Redaction.BudgetKeptIffFirstFits | app/tool_factory/redaction.py:39-50 | a text over the budget is cut down to it if and only if its first character fits, as it always does from four bytes on |
| Redaction.SmallBudgetKeepsAll | app/tool_factory/redaction.py:43-50 | the failing case: one four-byte character under a budget of two is kept whole |
| Redaction.ClippedLength | app/tool_factory/redaction.py:29-51 | from a budget of four bytes on a clipped text is at most the budget and the marker long |
| ToolHistory.StepKeepsGood | app/tool_factory/service.py:34-244 | every command, failing or not, keeps the invariant: stored definitions valid, at most 50 differently named versions, at most one active, ACTIVE and DISABLED with their flag and an active version, the newest switch on record naming the active version |
| ToolHistory.GatesAreStatusActive | app/tool_factory/execution.py:61-66 | for a tool in good order the three execution gates hold if and only if its status is ACTIVE |
| ToolHistory.NewestOther | app/tool_factory/service.py:210-221 | scanning a newest-first listing finds the last version switched to other than the current one, if it is within the listing limit |
| ToolHistory.RollbackGoesBack | app/tool_factory/service.py:206-230 | newest-first: a rollback activates the version in force just before the current one and leaves the tool executable; it is refused, changing nothing, in exactly the stated cases |
| ToolHistory.RollbackUndoesActivate | app/tool_factory/service.py:164-230 | activating w over another version v and rolling back restores v, if and only if v is not the empty name and a switch lies within the newest limit - 1 records |
| ToolHistory.RollbackTwice | app/tool_factory/service.py:206-230 | a second rollback restores the version active at the start, with the exact condition for it to be accepted |
| ToolHistory.InsertionOrderRollback | app/tool_factory/repository.py:104-106 | with the in-memory (oldest first) listing, rolling back an activation of w over v is accepted and restores v if and only if v has a name and every switch before the first one to v was to w |
| ToolHistory.ThreeVersionsInsertionOrder | app/tool_factory/service.py:214-221 | three versions activated in turn: newest first goes back to the second, insertion order to the first |
| ToolRuns.RunIsGood | app/tool_factory/service.py:34-244 | in every reachable store every tool of every organization satisfies the invariant |
| ToolRuns.ToolsAreIsolated | app/tool_factory/repository.py:46-106 | what a tool looks like after any run is decided by the commands on that organization and name alone |
| ToolRuns.ActiveWasApproved | app/tool_factory/service.py:78-186 | a tool that is approved or has an active version had a successful approval earlier in the run |
| ToolRuns.RejectedBecomesActive | app/tool_factory/service.py:232-244 | a single command makes a rejected tool executable if and only if it is an enabling and an active version is still on record |
| ToolRuns.DeactivatingLiftsRejection | app/tool_factory/service.py:164-204 | deactivating and activating again does it too, without any enabling |
| ToolRuns.RejectionHoldsIff | app/tool_factory/service.py:78-244 | some sequence of commands without an approval makes a rejected tool executable if and only if it has an active version on record |
| ToolRuns.NewestBodyRuns | app/tool_factory/service.py:99-141 | in every run in which the version limit was not met, the stored (executed) body is that of the newest version, whichever version is active, and the active version's own snapshot exactly when that has the newest body |
| ToolRuns.ApprovedBodyRunsIff | app/tool_factory/service.py:78-138 | the body a successful approval validated is the one executed later if and only if no version was stored since, or the last one stored has that very body |
| ToolRuns.RejectedWhileActive | app/tool_factory/service.py:91-96 | such tools are reachable: created, approved, activated, rejected |
| ToolFactory.ToolRecord.SetActiveVersion | app/tool_factory/repository.py:80-90 | flips the flag of every version in place, so that exactly the named one is active |
| ToolFactory.ToolRecord.GetActiveVersion | app/tool_factory/repository.py:92-97 | finds the active version's name, or none |
| ToolFactory.Service.CreateTool | app/tool_factory/service.py:34-68 | stores a validated tool with its first version, or fails, exactly as the specification step |
| ToolFactory.Service.ApproveTool | app/tool_factory/service.py:78-89 | does the approval step: revalidates, then only from VALIDATED or REJECTED |
| ToolFactory.Service.RejectTool | app/tool_factory/service.py:91-96 | does the rejection step, from any status |
| ToolFactory.Service.CreateToolVersion | app/tool_factory/service.py:99-141 | does the step for a new version, storing the definition before the limit of 50 versions is checked |
| ToolFactory.Service.ActivateToolVersion | app/tool_factory/service.py:164-186 | does the activation step on the stored record |
| ToolFactory.Service.DeactivateTool | app/tool_factory/service.py:188-204 | does the deactivation step on the stored record |
| ToolFactory.Service.RollbackTool | app/tool_factory/service.py:206-230 | does the rollback step, for either listing order |
| ToolFactory.Service.SetToolEnabled | app/tool_factory/service.py:232-244 | does the enabling step on the stored record |
| ToolFactory.Service.OneStepOfTheStore | app/tool_factory/repository.py:36-106 | such a call that leaves the other records alone is one step of the store the run theorems speak of |
| ToolFactory.Service.Perform | app/tool_factory/service.py:34-244 | each call of the service is exactly one step of the store, with the step's error |
| ToolExecution.ExecutionService.ExecuteTool | app/tool_factory/execution.py:49-138 | a call that a gate refuses runs nothing and leaves no audit; otherwise exactly the gated command runs, the report is clipped to the tool's budget, and the tool's latest 200 audits are kept |
| ToolExecution.ExecutedCommand | app/tool_factory/execution.py:58-97 | in every reachable store a command that passes the chain belongs to an active, earlier approved tool and is its stored template filled word for word under an allowed binary |
| ToolExecution.ReportKeepsBudget | app/tool_factory/execution.py:101-102 | whatever a tool in a reachable store prints, both reported streams keep their byte budgets |
| ToolExecution.BodyIsTheLastStored | app/tool_factory/service.py:135-138 | only creating a version changes the stored body: no activation or rollback brings an earlier one back |
| ToolExecution.NewVersionRunsAtOnce | app/tool_factory/service.py:128-138 | a new version of an active tool is executed at once although the active version stays the old one |
| RateLimiter.Limiter.RateLimited | app/api/app.py:90-98 | one call prunes the key's list and appends or refuses, exactly as the specification step |
| RateLimiter.PrunedAgreesWithLog | app/api/app.py:90-98 | the pruned list and the full log of accepted attempts have the same attempts inside any later window |
| RateLimiter.RefusedIffWindowFull | app/api/app.py:92-95 | a call is refused if and only if at least the limit of accepted attempts for its key are younger than the window |
| RateLimiter.AcceptedAttemptsSpread | app/api/app.py:90-98 | any limit + 1 accepted attempts of a key span at least the window |
| RateLimiter.KeysAreIndependent | app/api/app.py:90-98 | a key's list and log depend on the calls for that key alone |
| ContextBudget.BoundHistory | app/context_budget.py:13-27 | the loops compute the bounded history of the specification |
| ContextBudget.BoundedIsPrompt | app/context_budget.py:13-27 | what the prompt is for every conversation: the longest fitting end behind the leading system message, or behind a later one that came to the front too early |
| ContextBudget.LongestRecentPartIff | app/context_budget.py:21-27 | the prompt is the system message, if any, and the longest recent part within both limits, if and only if the conversation starts with a system message, or none is pinned later, or the pinned one happens to equal the message before the kept end |
| ContextBudget.LongestRecentPart | app/context_budget.py:13-27 | so it always is for conversations that start with a system message, whatever follows, or have none; only two messages may exceed the size limit |
| ContextBudget.MessageLimitKept | app/context_budget.py:21-23 | the message limit is respected if and only if it is not reached or leaves room for one message beside the system message |
| ContextBudget.LimitOfOneIsExceeded | app/context_budget.py:21-27 | the failing case: a limit of one and a leading system message give a prompt of two messages, or of three with the system message repeated |
| ContextBudget.LaterSystemMessageIsPinned | app/context_budget.py:24-26 | the failing case: of u, s, v, t a later system message s is kept and the newer v dropped |
| ContextBudget.BoundingTwice | app/context_budget.py:13-27 | bounding a bounded history changes nothing |
| PromptPairing.PromptPairedIff | app/context_budget.py:21-27 | if every tool result of a conversation follows its call or another result of it, the prompt keeps that if and only if the first message it keeps behind the system message is not a tool result |
| PromptPairing.RunStaysPaired | app/agent.py:247-328 | the tool loop keeps every result behind its call, in its last history and in every earlier one |
| PromptPairing.ResultLosesItsCall | app/context_budget.py:21-23 | the failing case: a call and its result with room for one message leave the result alone in the prompt |
| AgentLoop.Filter | app/agent.py:252-283 | the loop classifies every call as duplicate, unregistered or runnable, in call order |
| AgentLoop.ExecuteBatch | app/agent.py:308-313 | the results are those of the runnable calls in order, whatever order a parallel batch completes in |
| AgentLoop.AppendResults | app/agent.py:316-328 | merges presets and results in call order into the history, and runs out exactly when the specification's merge does |
| AgentLoop.RunToolLoop | app/agent.py:229-340 | the whole loop computes the specification run: history, executed calls, ending and number of model calls |
| AgentLoop.Classified | app/agent.py:259-283 | a call is preset exactly when its name and arguments occurred before or its name is unregistered |
| AgentLoop.IterationPairs | app/agent.py:247-328 | without an immediate restart the assistant message is followed by exactly one result per call, in call order, each the call's own answer |
| AgentLoop.RankIsOwnPlace | app/agent.py:315-318 | the executed result by which a call is answered is that of its own place in the batch |
| AgentLoop.RestartAloneOrRaised | app/agent.py:295-336 | with an immediate restart the iteration ends normally if and only if no other call of the reply was to be executed; otherwise the merge runs out of results |
| AgentLoop.RestartMisattributed | app/agent.py:305-328 | when the restart is not the first runnable call, the first one, which was never executed, is answered with the restart's result before the merge raises |
| AgentLoop.RunStaysClean | app/agent.py:229-340 | over a whole run no name with the same arguments executes twice, no unregistered name executes, and the model is called at most eight times |
| Router.ProviderState.RecordSuccess | app/llm_router.py:167-173 | resets the failure state in place |
| Router.ProviderState.RecordFailure | app/llm_router.py:175-190 | counts the failure and sets the exponential cooldown, or FAILED |
| Router.LLMRouter.FindNextProvider | app/llm_router.py:351-360 | finds the first usable, untried provider in cyclic order from the primary, or none |
| Router.LLMRouter.Chat | app/llm_router.py:256-337 | one chat answers or gives up, and updates the providers, as the specification says for the given completion order |
| Failover.SearchEnumerates | app/llm_router.py:297-303 | the repeated search yields every usable, untried provider exactly once, in cyclic order |
| Failover.AskedOnce | app/llm_router.py:280-310 | no provider is asked twice in a chat, the preferred one first, and when it fails every usable one is asked |
| Failover.AnswersIfAnyoneDoes | app/llm_router.py:305-337 | for every completion order a chat is answered if and only if a provider it asked answers, and gives up only after all of them failed, naming them all |
| Failover.ChatCharges | app/llm_router.py:280-331 | a chat records exactly one request, with its reply and clock reading, for each provider asked that completes no later than the first answer, and changes no other provider |
| Failover.LateFailuresAreLost | app/llm_router.py:327-331 | the failure of a provider that was asked is recorded if and only if no answer came before it; after an answer its state stays as if it had not been asked |
| Failover.LateFailureIsLost | app/llm_router.py:327-331 | the failing case: of three new providers the second answers, and the third, which fails after that, still counts as never asked |
| Failover.RunStates | app/llm_router.py:167-190 | over any number of chats FAILED is never left, AVAILABLE holds exactly without failures, and a provider's request count is exactly the number of chats that recorded it |
| Failover.CooldownsGrow | app/llm_router.py:183-187 | cooldowns are monotone in the consecutive failures and lie between 30 and 300 seconds |
| Failover.CoolingIsNotFound | app/llm_router.py:163-165 | after a retryable failure a search finds the provider if and only if it is untried and its whole cooldown has passed |
| MonitoringEngine.FindOrCreateIncident | app/monitoring/deduplication.py:18-50 | finds, updates, evicts and creates on the store as the specification does |
| MonitoringEngine.CorrelateAnomaly | app/monitoring/correlation.py:77-112 | attaches the anomaly to the first related incident, or falls back to deduplication for a critical one |
| MonitoringEngine.IncidentStore.Close | app/monitoring/incidents.py:104-116 | moves the incident to the bounded history |
| MonitoringEngine.MonitorEngine.RunCycle | app/monitoring/engine.py:86-172 | one cycle is the sequence of specification steps for its anomalies, none when the collector is unavailable, and reports exactly the new confirmations |
| MonitoringEngine.CyclesAreRuns | app/monitoring/engine.py:127-163 | any sequence of cycles is a run in the sense of the theorems |
| MonitoringRuns.EvictionPrefersInfo | app/monitoring/deduplication.py:38-45 | a full store loses its oldest info incident, and another one only when no info incident is left |
| MonitoringRuns.FindOrCreateKeeps | app/monitoring/deduplication.py:25-50 | deduplication keeps the invariant, leaves an open incident with the fingerprint, and creates exactly when there was none |
| MonitoringRuns.CorrelationNeverCreates | app/monitoring/engine.py:149-150 | after deduplication the correlation step never creates an incident: same incidents, places and states |
| MonitoringRuns.RunIsGood | app/monitoring/engine.py:127-163 | in every run: at most one open incident a fingerprint, active incidents within the maximum, severity the maximum and evidence the concatenation over the attached anomalies, one callback at most an incident, created = active + closed, history the last closed ones |
| MonitoringRuns.FiresAreSpaced | app/monitoring/cooldown.py:32-51 | without recoveries consecutive fires of a fingerprint are at least the cooldown apart, and from the fourth on at least the larger of the two cooldowns |
| MonitoringRuns.FiresSpan | app/monitoring/cooldown.py:32-46 | with the default cooldowns k >= 3 fires span at least 600 * (k - 2) seconds |
| Control.VerifyAction | app/control/verification.py:217-272 | the retry loop ends with the status of the first decisive attempt among at most three |
| Control.ExecuteActionFlow | app/control/controller.py:381-560 | the flow's outcome, event trace and action count are those of the specification |
| ControlRuns.FlowIsOrderly | app/control/controller.py:383-560 | the command of every plan entry was approved by the user for that entry just before, nothing follows a denial or failure, and a rollback command runs exactly after approval, success and failed verification of one entry |
| ControlRuns.AllApprovedIff | app/control/permissions.py:92-98 | every command sent, rollbacks included, directly follows the user's approval of it if and only if nothing is verified or the entry executed does not fail its verification |
| ControlRuns.RollbackGoesUnasked | app/control/controller.py:506-515 | the failing case: a container restarted with consent that stays down is restarted again without asking |
| ControlRuns.CommandsAreAPrefix | app/control/controller.py:383-455 | the commands sent are those of consecutive first entries, at most three a run and at most one with verification |
| ControlRuns.UnverifiedSuccess | app/control/controller.py:471-481 | without verification the flow succeeds if and only if every entry it may execute was permitted and succeeded |
| ControlRuns.VerifiedOutcomes | app/control/controller.py:483-558 | with verification every outcome has its exact cause; ROLLED_BACK needs a failed verification, a successful rollback and a successful second verification |
| ControlRuns.OnlyImmediateRunsAct | app/control/planner.py:215-227 | hypotheses with one piece of evidence are worth 0.25, so no run outside the immediate mode ever asks, acts or reports success |
| ControlRuns.ImmediateRunOutcome | app/control/controller.py:320-354 | an immediate run on named targets succeeds if and only if its first min(3, n) entries were all approved and succeeded |
| ControlRuns.ImmediateRunEvents | app/control/controller.py:381-481 | it asks and runs commands in plan order, at most three, and does nothing else |
| ProjectTree.ListProjectTree | app/project_intelligence.py:85-114 | the queue walk returns the first max_entries entries of the level-order listing (none for a limit of zero or less), and says truncated only if the limit was reached |
| ProjectTree.QueueIsLevelOrder | app/project_intelligence.py:97-113 | in mid-level a queue of the unopened rest and the folders already met yields level order, cut at the limit |
| ProjectTree.LevelsHold | app/project_intelligence.py:104-107 | level order reaches exactly the places behind readable folders with nothing ignored or secret on their path |
| ProjectTree.FullListingHolds | app/project_intelligence.py:104-111 | an entry is in the full listing if and only if it stands for such a place whose path matches the query |
| ProjectTree.ListingIsOrderly | app/project_intelligence.py:97-114 | on every finite tree no path is listed twice, nearer paths come first, the limit is never exceeded, and a listing short of the limit is the full one |
| ProjectTreeFlag.TruncatedIff | app/project_intelligence.py:97-114 | when there are at least max_entries matches, truncated is set if and only if, in level order, a folder stands behind the parent of the match that meets the limit and before that match |
| ProjectTreeFlag.CompleteIff | app/project_intelligence.py:97-114 | with fewer matches than the limit truncated is never set, and the listing is complete if and only if there are at most max_entries matches |
| ProjectTreeFlag.LevelsShowKids | app/project_intelligence.py:96-112 | level order shows the kids of the root and of itself, in that order |
| ProjectTreeFlag.FilesAreNeverTruncated | app/project_intelligence.py:109-114 | a case: a root without folders is never reported as truncated, even when matches are left out |
| ProjectTreeFlag.TruncatedYetComplete | app/project_intelligence.py:110-114 | a case: the flag is set on a complete listing, an empty folder being still queued |
| ConsolidationStore.MemoryStore.Consolidate | app/memory/consolidation.py:6-25 | both passes leave every listed memory as its group says, all other rows as they were, and return exactly the ids superseded and archived |
| Consolidation.FinalSplits | app/memory/consolidation.py:9-24 | every active memory ends in exactly one place: superseded iff an earlier one has its key, archived iff the merged keeper is unimportant, else kept as the merged keeper |
| Consolidation.KeeperIsGreatest | app/memory/consolidation.py:15 | a keeper carries exactly its group's greatest importance |
| Consolidation.KeeperConfidence | app/memory/consolidation.py:16 | a keeper's confidence is High if and only if some member's was |
| Consolidation.KeeperNamesItsGroup | app/memory/consolidation.py:17 | a keeper's provenance holds its own, every superseded member's id and provenance, and nothing else |
| Consolidation.DedupDiffers | app/memory/consolidation.py:17 | the merged provenance holds no item twice |
| Consolidation.SupersededIsAbsorbed | app/memory/consolidation.py:14-20 | each superseded memory is named by the one kept for its key, which is at least as important |
| Consolidation.KeptKey | app/memory/consolidation.py:9-19 | the key a kept memory is left with: that of its redacted words if it had a later duplicate, else its own |
| Consolidation.ActiveKeysDifferIff | app/memory/consolidation.py:9-20 | afterwards no two active memories share a key if and only if no two kept ones are left with the same key |
| Consolidation.SecondRunIff | app/memory/consolidation.py:6-25 | a second consolidation changes no row if and only if the active memories then differ in their keys |
| ConsolidationRuns.TextRulesRedactOnce | app/memory/repository.py:13-14 | the system's rules redact once when the removal of secrets from a text does, and the outcome has no part in keys or in the redaction of the other words |
| ConsolidationRuns.RunIsRedacted | app/memory/feedback.py:4-18 | along every run of storing, marking, feedback and consolidating, every stored title, content and source is what redaction leaves of it, whatever outcomes feedback writes |
| ConsolidationRuns.RunKeysDiffer | app/memory/consolidation.py:6-25 | so after any run, feedback included, a consolidation leaves no two active memories with one key, and the next one changes nothing |
| ConsolidationRuns.RedactionCanJoinKeys | app/memory/consolidation.py:18 | the failing input for rows that were not redacted when stored: two notes with a secret and one with its redacted form keep one key twice |
| ControlPlane.StepKeepsGood | app/control_plane/service.py:40-76 | every operation keeps every project, machine, worker and enrollment reference inside one organization |
| ControlPlane.OthersUntouched | app/control_plane/service.py:40-76 | an operation of one organization leaves the projects, machines, workers and enrollments of every other unchanged |
| ControlPlaneRuns.RunIsAccounted | app/control_plane/service.py:58-70 | in every run the tables and the log of issued and redeemed tokens agree |
| ControlPlaneRuns.RegistersIff | app/control_plane/service.py:63-66 | a token registers a worker if and only if it was handed out 1 to 60 minutes before an expiry still ahead, and has not been used |
| ControlPlaneRuns.UsedHasWorker | app/control_plane/service.py:66-68 | every used enrollment has a registration whose worker has the enrollment's scope |
| ControlPlaneRuns.WorkerHasEnrollment | app/control_plane/service.py:66-68 | every worker comes from a used enrollment of equal scope, registered before its expiry |
| ControlPlaneRuns.RegistrationsDiffer | app/control_plane/service.py:65-68 | in every run two registrations never share an enrollment or a worker |
| ControlPlaneRuns.HeartbeatNeedsItsSecret | app/control_plane/service.py:71-74 | a heartbeat is accepted if and only if it carries the secret its worker's registration handed out |
| ControlPlaneRuns.NamesLastWorker | app/control_plane/service.py:67-69 | in every run a machine names the worker of the last registration on it, and none before |
| ControlPlaneRuns.HeartbeatMirrorsIff | app/control_plane/service.py:75-76 | a machine stays in step with the worker it names if and only if the heartbeat comes from that worker or reports the same |
| ControlPlaneRuns.OlderWorkerIsShown | app/control_plane/service.py:63-76 | the failing run: two workers registered on one machine, and a heartbeat of the first makes the machine show its report while naming the second |
| ControlPlane.ControlPlaneService.CreateEnrollment | app/control_plane/service.py:58-62 | refuses a scope that does not match the machine; else stores the enrollment under the token's hash |
| ControlPlane.ControlPlaneService.RegisterWorker | app/control_plane/service.py:63-70 | refuses unknown, used and expired tokens; else marks the enrollment used, adds the worker and updates its machine |
| ControlPlane.ControlPlaneService.Heartbeat | app/control_plane/service.py:71-76 | refuses a wrong secret; else updates the worker and its machine |
| EditorText.Unescape | scripts/edit.py:221-234 | the index loop computes the unescaped text |
| EditorText.UnescapeInvertsEscape | scripts/edit.py:221-234 | unescaping inverts the canonical escaping of every text |
| EditorText.UnescapeKeepsIff | scripts/edit.py:221-234 | a text is left alone if and only if no backslash in it stands before one of the five letters |
| EditorText.FindMatchLines | scripts/edit.py:198-209 | the search loop returns the line number of each match of the specification |
| EditorText.PositionsAreLeftmost | scripts/edit.py:198-209 | the matches are occurrences, do not overlap, and every occurrence overlaps a match at or before it |
| EditorText.LeftmostIsUnique | scripts/edit.py:198-209 | there is only one such list of matches |
| EditorText.OneMatchIff | scripts/edit.py:377-388 | one match is reported if and only if some occurrence is overlapped from the right by every other |
| EditorText.OnlyMatchIsReplaced | scripts/edit.py:389-390 | then exactly that occurrence gives way to the new text |
| EditorText.OverlapIsNotNoticed | scripts/edit.py:381-388 | overlapping occurrences count as one match, so such a replacement is not refused as ambiguous |
| Editor.Workspace.Replace | scripts/edit.py:365-403 | refuses as the specification says, else backs the file up, writes the new text and reports the match's line |
| Editor.Workspace.Undo | scripts/edit.py:488-508 | restores the latest backup, archives the present text and retires the backup used |
| Editor.NewestIsLatest | scripts/edit.py:182-195 | a candidate newer than all others by time and name is the one taken |
| Editor.ReplaceThenUndo | scripts/edit.py:365-508 | in a settled file an accepted replacement followed by an undo restores the text and touches no other file |
| Editor.UndoTwiceIff | scripts/edit.py:488-508 | two undos of a settled file leave its text as it was if and only if that text holds no NUL |
| Editor.NulIsLost | scripts/edit.py:188-196 | the failing case: a file holding a NUL over a readable backup can be undone, and undoing that does not bring the NUL back |
| Editor.UndosAlternate | scripts/edit.py:488-508 | any number of undos of a settled, readable file alternates between two texts, so older backups are never reached |
| EditorNames.FreeTryIsFirst | scripts/edit.py:174-179 | the counter stops at the first name that no backup bears |
| Editor.Workspace.BackupFile | scripts/edit.py:170-181 | the counter loop draws the name of the specification and appends the copy under it |
| EditorNames.ForeignName | scripts/edit.py:174-190 | no name drawn for another file, with a stamp of the form the clock writes and any counter, is offered for this one unless the other's name ends with `_` and this name, or this name is the other's behind a counter and `_` |
| EditorRuns.RunIsSettled | scripts/edit.py:170-195 | from a folder without backups, with rising times, every file that collides with no other in this sense is settled in every run |
| EditorRuns.CandidatesAreOwn | scripts/edit.py:187-195 | in every run each backup an undo of such a file can take holds what that very file held earlier |
| EditorRuns.RestoresOwnIff | scripts/edit.py:170-195 | in every run every undo of a file restores one of its own texts if and only if no other name in use collides with its name |
| EditorRuns.SiblingIsRestored | scripts/edit.py:174-195 | for every colliding pair a run of edits of the other file, at one moment, after which an undo of this one restores a text it never held |
| EditorRuns.UndoTakesTheSibling | scripts/edit.py:187-195 | when a sibling's name ends with `_` and this file's name, an undo can bring in the sibling's text |
| Editor.NeverUndone | scripts/edit.py:190 | a file whose own name ends in `.undone` is never offered for undo |

## Left out

- Tool factory storage: the repository's dictionaries of definitions, versions and activations are one record a tool, with versions as values inside it; the copies PostgreSQL hands out (a definition whose version field is stale after an activation) are not modelled.
- FactoryPolicy: the shipped list of denied tokens is left out, since the theorems hold for any list.
- Tool factory validation: names, schemas, paths, modes and bounds are one abstract test of a definition; only the template and value rules are written out. Issue messages, checksums, actors and reasons are left out.
- Template.Tokenize: Python's regular expressions are written as scanners for the three patterns the code uses; letter case and word characters of Unicode are parameters with the ASCII facts the proofs need.
- ToolExecution.ExecutionService.ExecuteTool: audit hashes, previews, durations and the reported execution mode are left out.
- Redaction.Truncate: the secret patterns before the cut are an arbitrary function; lone surrogates are replaced as `errors="replace"` does.
- Limiter and router clocks: real-valued parameters; the limiter theorems take a nondecreasing clock.
- ContextBudget.BoundHistory: messages are values, so that the caller's dictionaries stay unchanged holds by construction; the length of the serialized message is a parameter; `select_tools` is left out.
- AgentLoop.RunToolLoop: prompts, shortcuts before the loop, usage tracking and the wording of answers are left out; the argument test for an immediate restart is a flag of the call.
- Router.LLMRouter.Chat: threads are an arbitrary completion order, and all fallbacks are searched at one instant; the number of workers, usage records, streaming and the classification of error texts are left out.
- MonitoringEngine.MonitorEngine.RunCycle: incidents are values in the store, so references handed out earlier are not captured; the callback does not touch the store; detection, timelines, closing times, resolution texts and manual transitions other than closing, resolving and suppressing are left out; a fingerprint is a field of the anomaly.
- ControlRuns: evidence collection, hypothesis wording, incident timelines and memory retrieval are left out; requests are given as the patterns of `_create_plan` read them.
- ProjectTree.ListProjectTree: the directory's children are given in the order the sort produces; path authorization and symbolic links that form cycles are left out (the tree is finite); case folding is a parameter.
- ConsolidationStore.MemoryStore.Consolidate: the table is one map and one fixed newest-first order (new memories enter it in ConsolidationRuns, at a given place); update times, timestamps, tags, the vector index and search are left out; case folding and redaction are parameters.
- ControlPlane: records are values in the service's maps, so the worker object handed to a caller does not change with the store; drawn identifiers and tokens are fresh, and the hash is injective where a theorem says so; public dumps and listing are left out.
- Editor.Workspace.Replace: the refusals of `create` and `append` (in runs they are overwritings), reading options from files, dry runs, diffs, line-ending hints and file modes are left out; the calendar behind a stamp is left out (in runs a stamp has the form `backup_file` writes, its digits are free); a used backup does not overwrite an earlier one of the same name; times are compared as integers, and texts are valid UTF-8.
- EditorRuns.RunIsSettled: write times rise strictly from event to event; equal times, which the code settles by name, are covered only by Editor.NewestIsLatest.
- Everything else: model clients, SSH, subprocesses, web routes, pages, voice, metrics, personality and keyword lists are input and output around this core.
