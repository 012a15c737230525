# A model of the Otto host, its canvas and its fence parser

Otto is an agent host. A turn sends a conversation to a provider, runs the tools the model asks for
behind a permission gate, and commits the conversation. Providers are connected and disconnected
while turns are in progress. The answer text is cut into plain text and HTML canvases by a streaming
parser, and a canvas answers clicks without keeping its document.

This project models those parts and proves what they promise. `dafny verify dfyconfig.toml` checks
everything.

| files | what they model |
|---|---|
| `ProviderPool`, `PoolProtocol`, `CancelReach`, `HardAbort` | the provider pool: leases, the cancel broadcast and whom it reaches, every interleaving of turns, additions and removals, the table of abort handles, and the abort at a Force's deadline |
| `Conversation`, `TurnLoop`, `TurnContents`, `Subagent` | the turn loop, the subagent loop, the pairing of tool uses with tool results, and what the results carry |
| `PromptGate`, `NetDecision` | prompts to the user, and the session-wide answer about bash and the network |
| `Fence`, `FenceTheory`, `FenceReading` | the streaming fence parser, its independence of how text is cut, and what a text with a canvas is shown as |
| `ToolRegistry`, `LazyBash` | routing tables built from tool endpoints, and the one-slot bash server cache |
| `Dom`, `Interceptor`, `FormEncoding`, `LinkTargets`, `Canvas`, `HtmlCanvas` | default actions of a click, what links and forms open, form queries, and the replayed state log against a retained document |
| `CanvasStates` | canvas states saved into the history by the number of the canvas |
| `Permissions`, `DefaultPolicy`, `Paths`, `PathLaws`, `SensitivePaths` | layered first-match rules, what is decided unasked and what a recorded answer covers, path containment, the sensitive-path floor |
| `Strikes`, `Resources` | the rolling trap counter and the cache of announced resources |

Objects whose methods update fields are classes, each proved against functions on values; locks are
modelled as atomic sections, and a whole run is a sequence of such steps in any order.

## Where the code does not do what its comments or design say

- Cutting the model's text differently can change what is shown. The parser's comment says that a
  diverged partial line can be flushed safely; after such a flush the rest of the line is read as if
  it began a line. `FenceTheory.ChunkIndependence` gives the exact condition, `FenceTheory.ChunkSafeIff`
  says it for whole texts without speaking of cuts (`FenceTheory.LineSafeIff` for a line,
  `FenceTheory.TailSafeIff` for the text after the last newline), and `FenceTheory.MidLineCutFlips` is a
  family of texts that fail.
- The crate documentation of the parser says that a line of exactly three backticks closes a fence and
  that a line beginning with the opening marker opens one. In the code the marker stands alone on its
  line, behind any whitespace and before line breaks only (`FenceTheory.FenceLineIff`): an indented
  marker counts, and one with a word behind it does not (`FenceTheory.MarkerAndMoreIsNoFence`,
  `FenceTheory.MarkerExamples`).
- When a turn finds no cancel sender the comment says that a fallback lets the turn proceed. The
  fallback's only sender is dropped at once, so the turn's cancel receiver is ready from the start
  (`PoolProtocol.NoSenderNoWait`). The sender is missing for good after a provider was added again
  during its own removal (`PoolProtocol.SenderPresentIff`, `PoolProtocol.ReaddDuringDrainLosesSender`).
- The abort at a Force's deadline goes by provider id, so it also ends provider calls on an entry that was
  added again while a lease on the removed one kept the Force waiting (`HardAbort.ReaddedTurnIsAborted`).
  When the abort comes it does so exactly when such a call has registered its handle
  (`HardAbort.HitsOtherIff`). While the Force waits, this can still come about without another addition
  exactly when the id is in the pool again or such a call is in progress, and a lease on the removed entry
  is left or its abort is already due (`HardAbort.MayHitOtherIff`).
- The session decision about the network is not write-once when two prompts are answered at the same
  time: the cache is read and written in separate lock sections (`NetDecision.DecisionCanChangeIff`,
  `NetDecision.ConcurrentAnswersFlip`). It is when callers take turns (`NetDecision.SerialDecisionIsFinal`).
- An endpoint that advertises a tool named `read_resource` gives the model two definitions of one name,
  and all its calls go to the built-in one (`ToolRegistry.DefsDistinctIff`, `ToolRegistry.TurnReachesOwnerIff`,
  `ToolRegistry.ReadResourceTwice`). In-process tools can repeat a name too (`ToolRegistry.ShownDistinctIff`).
- Whether a spawned bash server has network need not follow its spawn key. Unwrapped, because sandboxing
  is off or the wrapper is missing, it always has (`LazyBash.UnwrappedHasNetwork`). Wrapped, a pinned user
  override wins, and among several matching pins the order of a hash map decides (`LazyBash.DifferingPin`).
  `LazyBash.NetworkIsKeyIff` is the exact condition.
- The new bash server is started before the old one is stopped so that the slot is not left empty. A call
  dropped while the old server stops leaves it empty all the same, until the next server comes up
  (`LazyBash.EmptiedIff`).
- Hand-edited rules are said to match in the order written, with specific denials above general
  permissions. Loading puts every allowing rule first, and saving forgets the order
  (`Permissions.ReloadIsIdentityIff`, `Permissions.ReloadChangesAnswerIff`). This also happens to answers
  given in the session: a denial for good is undone by a restart when a more general write was allowed
  after it (`Permissions.AnswerSurvivesRestartIff`, `Permissions.RestartUndoesDeny`).
- A recorded answer is said to store the first word of a command. A command of blanks has none, and an answer
  to it for good covers every command (`DefaultPolicy.RecordedCovers`, `DefaultPolicy.BlankCommandCoversAll`).
- Dotenv files are said to be sensitive anywhere in a path; only the last segment is looked at
  (`SensitivePaths.SensitiveIff`, `SensitivePaths.BelowSensitiveIff`, `SensitivePaths.DotenvDirectoryEscapes`).
- The strike window is exact for a clock that never goes back. The instant is taken before the lock, so
  two strikes can be recorded out of order. Then the count can be too high, when something expired is
  behind something live, or too low, when something dropped earlier is live again; when neither is so, it
  is exact (`Strikes.QueueIsWindowIff`, `Strikes.DisablesAsWindow`, `Strikes.OutOfOrderOvercounts`,
  `Strikes.OutOfOrderUndercounts`).
- A form is submitted by appending a question mark and the fields to its action, whatever the action is. When
  the action has a question mark or a number sign of its own, a URL reader finds the fields only under the
  condition of `Interceptor.SubmittedFieldsReadIff`; `Interceptor.ActionWithQuery` is an example.
- The numbers of canvases are said to match their places in the history exactly. A turn that fails or is
  cancelled keeps the numbers of the canvases it streamed and leaves no canvas in the history, so later
  states are saved into the wrong one (`CanvasStates.KeepsOwnIff`, `CanvasStates.LostTakesPlace`), until a
  transcript is resumed (`CanvasStates.ResumeForgets`).
- A details element that is open in the source comes back open after the user closed it
  (`Canvas.SameOpenIff`, `Canvas.OpenInSourceExample`). Restoring a snapshot without focus leaves an old focus in place
  (`HtmlCanvas.RestoreGivesSnapshotIff`), and a focus restored and then cleared returns at the next
  render (`HtmlCanvas.ClearedFocusStaysIff`).

## Model

| member | source | states |
|---|---|---|
| ProviderPool.Host.constructor | crates/otto-host/src/session.rs:738-753 | a host built with one provider has its entry with counter zero and a live sender for it |
| ProviderPool.Host.AddEntry | crates/otto-host/src/session.rs:2091-2105 | a new id gets a fresh entry with counter zero; a connected id is refused and nothing changes |
| ProviderPool.Host.AddSender | crates/otto-host/src/session.rs:2106-2112 | a sender is created only if the id has none |
| ProviderPool.Host.SubscribeCancel | crates/otto-host/src/session.rs:1224-1240 | the receiver listens on the id's channel from now on, or on a channel whose sender is already gone |
| ProviderPool.Host.Lease | crates/otto-host/src/session.rs:1245-1252 | a lease counts up the entry that is in the pool now; a missing id gives none |
| ProviderPool.Host.Release | crates/otto-host/src/pool.rs:133-137 | dropping a lease counts its own entry down, whether or not it is still in the pool |
| ProviderPool.Host.TakeEntry | crates/otto-host/src/session.rs:2137-2144 | the entry leaves the pool and is handed to the removal; its counter lives on |
| ProviderPool.Host.Broadcast | crates/otto-host/src/session.rs:2158-2166 | one message on the id's current channel, if it has one |
| ProviderPool.Host.RemoveSender | crates/otto-host/src/session.rs:2215-2222 | the id's sender, whichever it is by now, is closed and forgotten |
| PoolProtocol.KeepsInv | crates/otto-host/src/session.rs:1207-1252 | every lock-protected step of turns, additions and removals keeps the seven-part invariant |
| PoolProtocol.StartInv | crates/otto-host/src/session.rs:622-631 | a host started with any list of providers satisfies the invariant |
| PoolProtocol.RunInv | crates/otto-host/src/session.rs:1207-1252 | so does every state any interleaving reaches |
| PoolProtocol.ForceReachesEveryTurn | crates/otto-host/src/session.rs:2132-2166 | once a Force has broadcast, every turn holding a lease on its entry has a ready receiver, then and in every later state, even if the id was added again |
| PoolProtocol.BroadcastReaches | crates/otto-host/src/session.rs:2158-2166 | right after the broadcast step the receiver of each such turn is ready |
| PoolProtocol.CountIsOutstanding | crates/otto-host/src/pool.rs:92-104 | in every reachable state each counter equals the number of outstanding leases on its entry |
| PoolProtocol.NoLeaseAfterRemoval | crates/otto-host/src/session.rs:2137-2144 | after an entry left the pool no lease on it is ever created; its leases only go away |
| PoolProtocol.DrainWaitsForAll | crates/otto-host/src/session.rs:2137-2154 | a Drain stops waiting only when no lease on its entry is outstanding, and none ever is again |
| PoolProtocol.SenderPresentIff | crates/otto-host/src/session.rs:2100-2112 | once additions and removals of a connected id are over it has a sender exactly when its last sender step met no removal of the id in flight |
| PoolProtocol.ReaddDuringDrainLosesSender | crates/otto-host/src/session.rs:2215-2222 | adding a provider again during its Drain leads to a quiet state where it is connected without a sender |
| PoolProtocol.NoSenderNoWait | crates/otto-host/src/session.rs:1228-1238 | a turn that found no sender has a ready receiver in every later state |
| CancelReach.ReadyIff | crates/otto-host/src/session.rs:1224-1240 | in every run from its subscription on, a turn's receiver returns exactly when the turn found no sender, or since then a Force of its own id broadcast or a removal of its own id finished |
| CancelReach.CancelEndsIff | crates/otto-host/src/session.rs:1284-1299 | so a cancel ends a turn that holds its lease exactly then, and never for another id's sake |
| CancelReach.BroadcastSparesOthers | crates/otto-host/src/session.rs:2158-2166 | a broadcast leaves the receivers of turns under other ids as they were |
| CancelReach.OneMessage | crates/otto-host/src/session.rs:2158-2166 | it is one message on the id's channel and none on any other |
| HardAbort.TurnHandles.constructor | crates/otto-host/src/session.rs:670 | no handles at the start |
| HardAbort.TurnHandles.Register | crates/otto-host/src/session.rs:1259-1262 | the handle joins those under its id |
| HardAbort.TurnHandles.CleanUp | crates/otto-host/src/session.rs:1305-1313 | the handles of finished tasks go, and the id with the last one |
| HardAbort.TurnHandles.Take | crates/otto-host/src/session.rs:2179-2185 | all handles under the id leave the table and are handed over |
| HardAbort.CallKeeps | crates/otto-host/src/session.rs:1257-1313 | every step of leases, tasks, handles, clean-ups, deadlines, aborts and the pool protocol keeps the invariant of calls and handles |
| HardAbort.RunHandles | crates/otto-host/src/session.rs:1257-1313 | so does every interleaving, in which a cancelled turn leaves its handle in the table |
| HardAbort.HandlesGoById | crates/otto-host/src/session.rs:1257-1313 | in every reachable state a handle's turn, if still there, leases under the handle's id, and a registered call in progress has its handle in the table unless it was taken |
| HardAbort.CancelLeavesHandle | crates/otto-host/src/session.rs:1284-1299 | a registered turn whose receiver returns gives its lease back and leaves its handle in the table |
| HardAbort.AbortHitsIff | crates/otto-host/src/session.rs:2176-2186 | the deadline's abort ends a call in progress exactly when it runs under the removed id, on whatever entry, and has registered its handle |
| HardAbort.DeadlineEndsRegistered | crates/otto-host/src/session.rs:2176-2186 | whatever runs in between, once the aborts have landed no turn registered under the removed id at the deadline holds its lease |
| HardAbort.HitsOtherIff | crates/otto-host/src/session.rs:2176-2186 | in any state the abort ends a call on another entry than the removed one exactly when one under the id has registered its handle |
| HardAbort.NoLeaseNoAbort | crates/otto-host/src/session.rs:2172-2176 | a removal that waits while no lease on its entry is left never aborts, whatever runs |
| HardAbort.MayHitOtherIff | crates/otto-host/src/session.rs:2171-2186 | while a Force waits, its abort may come to end such a call, without another addition, exactly when the id is in the pool again or such a call is in progress, and a lease on the removed entry is left or the deadline was found passed already |
| HardAbort.ReaddedTurnIsAborted | crates/otto-host/src/session.rs:2171-2186 | a run of steps, from the start of the host and with a subagent's lease on the removed entry, to such an abort |
| TurnLoop.Session.RunTurn | crates/otto-host/src/session.rs:1133-1568 | for every world: at most the allowed number of provider calls, each given the stripped working history; success commits old history, user message and all rounds; every other exit leaves the history unchanged |
| TurnLoop.Session.TakeResponse | crates/otto-host/src/session.rs:1330-1401 | the answer is appended, and the loop goes on exactly when it holds a tool use, whatever the stop reason |
| TurnLoop.Session.RunTools | crates/otto-host/src/session.rs:1402-1567 | one result and one record per tool use, in order, refused or done |
| TurnLoop.Session.Inject | crates/otto-host/src/session.rs:1139-1158 | updated resources become one user message in front of the next call, or nothing |
| TurnLoop.BeforeAnswered | crates/otto-host/src/session.rs:1133-1568 | from a paired history the working history is paired at the start of every iteration |
| TurnLoop.BeforeExpected | crates/otto-host/src/session.rs:1133-1568 | and no tool result stands anywhere else, when responses carry none |
| TurnLoop.RequestsAnswered | crates/otto-host/src/session.rs:1133-1568 | each history sent is paired in the provider's own ids |
| TurnLoop.CommitIsPaired | crates/otto-host/src/session.rs:1388-1391 | what is committed extends the old history and the user message, is paired both ways, and ends in an assistant message without tool uses |
| TurnLoop.ResultsAnswer | crates/otto-host/src/session.rs:1402-1567 | the results of a round answer exactly its tool uses: same ids, same order, nothing else |
| TurnLoop.JoinNamespaced | crates/otto-host/src/router/namespace.rs:23-56 | the text returned by a turn does not depend on the id prefixes |
| TurnLoop.OverlapKeepsPairing | crates/otto-host/src/session.rs:1388-1391 | each step of turns that overlap with each other, with clearing and with loading keeps the shared history and every snapshot paired |
| TurnLoop.OverlapRunIsPaired | crates/otto-host/src/session.rs:938-941 | and so does every run of such steps in which only paired transcripts are loaded |
| TurnLoop.MeanwhileIsLost | crates/otto-host/src/session.rs:1388-1391 | whatever is committed, cleared or loaded while a turn runs, its commit is the one it would have made at once, and extends the history it began from |
| TurnLoop.LastCommitWins | crates/otto-host/src/session.rs:1388-1391 | a commit overwrites whatever the shared history became since its turn began |
| TurnContents.BeforeTells | crates/otto-host/src/session.rs:1402-1567 | every earlier iteration stands in the working history: what the model said and, for each tool use in order, the blocks and the error flag its tool gave, or as an error the reason of its refusal |
| TurnContents.CommitTells | crates/otto-host/src/session.rs:1388-1391 | so it does in what a turn commits, which ends with the last answer |
| TurnContents.RequestTells | crates/otto-host/src/session.rs:1133-1568 | and in each request the provider is sent |
| TurnContents.StripChangesOnlyIds | crates/otto-host/src/router/namespace.rs:63-95 | stripping a history changes nothing but ids of uses and results, nested ones included |
| TurnContents.NamespaceChangesOnlyIds | crates/otto-host/src/router/namespace.rs:23-56 | so does prefixing an answer |
| TurnContents.CallsTell | crates/otto-host/src/session.rs:1402-1567 | the records of a turn name each tool use with its arguments, status and payload, in order |
| TurnContents.TextIs | crates/otto-host/src/session.rs:1345-1353 | the text of a turn is its first text block that is not empty and each later one on a line of its own |
| TurnContents.FailureSays | crates/otto-host/src/session.rs:1133-1568 | each way a turn can end gives its own result: the limit exactly when every iteration continued, a missing provider, a cancel with its reason, an abort, a panic, the provider's error |
| TurnContents.NoticesName | crates/otto-host/src/session.rs:1139-1158 | the message in front of a call names every resource that changed |
| Conversation.RoundPaired | crates/otto-host/src/session.rs:1359-1567 | an assistant message with tool uses and the message answering them are a paired history |
| Conversation.StripKeepsAnswered | crates/otto-host/src/router/namespace.rs:63-95 | removing a provider's prefix from a paired history keeps it paired |
| Conversation.StripUndoesNamespaceIff | crates/otto-host/src/router/namespace.rs:23-56 | a provider sees its own id again exactly when that id did not begin with its prefix |
| Conversation.NamespaceCollidesIff | crates/otto-host/src/router/namespace.rs:23-56 | two ids collide exactly when they are equal or one is the other with the prefix on |
| Conversation.NamespaceUses | crates/otto-host/src/router/namespace.rs:23-56 | prefixing keeps the tool uses, their number and their order |
| Subagent.RunSubagent | crates/otto-host/src/subhost.rs:131-212 | without a lease the run ends at once and sends nothing; otherwise, for any observed prefix: what was sent is the private history of each iteration, only allowed tools are reached, and the result is the one the last iteration calls for |
| Subagent.DispatchTools | crates/otto-host/src/subhost.rs:239-256 | one result per tool use; a name off the list is refused without reaching the registry |
| Subagent.SubRequestsAnswered | crates/otto-host/src/subhost.rs:147-212 | every request of a subagent, however long it goes on, is a paired history |
| Subagent.DispatchAnswers | crates/otto-host/src/subhost.rs:325-360 | the results of a subagent round answer exactly its tool uses |
| Subagent.SubHistoryTells | crates/otto-host/src/subhost.rs:239-260 | behind the prompt the private history holds each iteration in order: the answer, and for each use the tool's payload and error flag, or off the list an error that names the tool |
| Subagent.SubEndSays | crates/otto-host/src/subhost.rs:341-358 | exactly when a run goes on, answers, is stopped, has no output or fails |
| PromptGate.PromptTables.constructor | crates/otto-host/src/session.rs:790 | ids start at one and no sender waits |
| PromptGate.PromptTables.Mint | crates/otto-host/src/session.rs:1902 | the next id of the shared counter goes to this call |
| PromptGate.PromptTables.Park | crates/otto-host/src/session.rs:1903-1904 | the sender waits in the table of its own kind |
| PromptGate.PromptTables.TakeSender | crates/otto-host/src/session.rs:1745-1764 | an answer takes the sender out of its table; an unknown id changes nothing |
| PromptGate.KeepsInv | crates/otto-host/src/session.rs:1886-1924 | every step of gated calls and answers keeps ids unique, senders in place and passes earned |
| PromptGate.GateIsSound | crates/otto-host/src/session.rs:1886-1924 | over any run no id is shared by two waiting prompts of either kind, and a call passed only by policy or by the answer Allow to its own id |
| PromptGate.RepliesAreFinal | crates/otto-host/src/session.rs:1745-1764 | what an id was minted for and the reply it got never change; a sender is used at most once |
| PromptGate.UnknownAnswerIgnored | crates/otto-host/src/session.rs:1742-1750 | answering an unknown id, or an id a second time, changes nothing |
| PromptGate.ArrivalSettles | crates/otto-host/src/session.rs:1894-1906 | a policy Allow passes at once, a Deny or asking with nobody to answer refuses at once, and any other call gets an id of its own |
| PromptGate.AnswerDecides | crates/otto-host/src/session.rs:1916-1921 | a waiting call is let through by Allow for its id and refused by Deny |
| PromptGate.WokenPassesIff | crates/otto-host/src/session.rs:1916-1921 | over any run, once a waiting permission call has woken it is through exactly when the reply delivered to its id was Allow |
| PromptGate.AbandonForgets | crates/otto-host/src/session.rs:1902-1917 | a call that is given up is gone while its sender stays in the table |
| NetDecision.BashNetwork.Resolve | crates/otto-host/src/permissions.rs:368-399 | one caller on its own: the policy decides, else the stored decision, else the choice, stored only if it is a lasting one |
| NetDecision.DecisionCanChangeIff | crates/otto-host/src/session.rs:2557-2614 | a stored decision can still change exactly when a caller that found none is about to store the opposite |
| NetDecision.LaterCallsGetDecision | crates/otto-host/src/session.rs:2567-2570 | once that is excluded every later caller gets the decision, interactive or not |
| NetDecision.ConcurrentAnswersFlip | crates/otto-host/src/session.rs:2600-2611 | two prompts answered at once: the stored decision goes from yes to no |
| NetDecision.SerialDecisionIsFinal | crates/otto-host/src/tools.rs:348-358 | when callers take turns a stored decision never changes |
| NetDecision.ChoiceMeans | crates/otto-host/src/session.rs:2563-2613 | the two allowing choices let the call through; the two lasting ones settle it for all later callers, and after any other the next caller is asked again |
| NetDecision.NobodyToAsk | crates/otto-host/src/session.rs:2572-2604 | a caller with nobody to ask, or whose prompt is lost, is denied and settles nothing |
| Fence.FenceParser.constructor | crates/otto-fence/src/lib.rs:52-56 | nothing is buffered and no fence is open |
| Fence.FenceParser.Push | crates/otto-fence/src/lib.rs:65-88 | the new state and the chunks are those of the buffer followed by the fragment, read line by line |
| Fence.FenceParser.Finish | crates/otto-fence/src/lib.rs:91-101 | the buffer is read as a last line and the open-fence flag is reported |
| Fence.FenceParser.ConsumeLine | crates/otto-fence/src/lib.rs:103-126 | a fence line flips the state and is dropped; any other is shown in the current kind |
| Fence.SplitSafeFlush | crates/otto-fence/src/lib.rs:156-182 | a tail is held whole exactly when it can still become a fence line, and flushed whole otherwise |
| FenceTheory.CoalesceKeepsTags | crates/otto-fence/src/lib.rs:129-143 | chunks show exactly the characters of their pieces, in order and kind |
| FenceTheory.CoalesceAlternates | crates/otto-fence/src/lib.rs:129-143 | within one push no chunk is empty and neighbours differ in kind |
| FenceTheory.WalkConserves | crates/otto-fence/src/lib.rs:65-88 | for any text, shown and dropped pieces in order, then the buffer, are the input; every dropped piece is a fence line |
| FenceTheory.RunConserves | crates/otto-fence/src/lib.rs:65-88 | the same for every fragmentation, and after each push the buffer has no newline and may still become a fence line |
| FenceTheory.HeldShape | crates/otto-fence/src/lib.rs:156-182 | a held buffer is blanks followed by a prefix of the marker of the current state |
| FenceTheory.HoldablePrefix | crates/otto-fence/src/lib.rs:173-181 | a partial line that has diverged never comes back |
| FenceTheory.CutOnce | crates/otto-fence/src/lib.rs:65-126 | on a safe text, pushing the front and then the rest shows what one push shows |
| FenceTheory.ChunkIndependence | crates/otto-fence/src/lib.rs:65-126 | every way of cutting a text shows the same tagged characters and the same flag as one push, if and only if each line, read in its state, is safe to cut |
| FenceTheory.BadCut | crates/otto-fence/src/lib.rs:156-182 | an unsafe text has a single cut that changes what is shown |
| FenceTheory.LineSafeIff | crates/otto-fence/src/lib.rs:156-182 | a line is safe exactly when a fence line is blanks, marker and newline only, and any other line ending in its marker has nothing but blanks and a marker prefix before it |
| FenceTheory.TailSafeIff | crates/otto-fence/src/lib.rs:93-103 | the text after the last newline is safe exactly when, if it ends in the awaited marker, what stands before that marker is blanks and a prefix of it |
| FenceTheory.ChunkSafeIff | crates/otto-fence/src/lib.rs:65-126 | the condition for a whole text, line by line and at its end, without speaking of cuts |
| FenceTheory.OrdinaryIsSafe | crates/otto-fence/src/lib.rs:65-126 | text whose only whitespace is space, tab and newline, without a non-fence line ending in its marker, is safe |
| FenceTheory.MidLineCutFlips | crates/otto-fence/src/lib.rs:156-182 | for every other first character followed by a marker line, cutting after the character opens or closes a fence that one push does not |
| FenceTheory.FenceLineIff | crates/otto-fence/src/lib.rs:103-126 | a line is a fence line exactly when it is whitespace, the marker, and nothing but line breaks |
| FenceTheory.MarkerAndMoreIsNoFence | crates/otto-fence/src/lib.rs:5-9 | a line that begins with the marker and has anything but line breaks behind it is no fence line |
| FenceTheory.MarkerExamples | crates/otto-fence/src/lib.rs:5-9 | the opening marker with a word behind it does not open, and indented backticks close |
| FenceReading.CanvasIsShown | crates/otto-fence/src/lib.rs:103-126 | text, the opening marker, a body, the closing marker and more text: the body is shown as the canvas, the rest as text, and the markers not at all |
| FenceReading.OpenCanvasIsShown | crates/otto-fence/src/lib.rs:93-103 | a canvas that is not closed is shown to the end and reported |
| FenceReading.HeldIff | crates/otto-fence/src/lib.rs:156-182 | a partial line is held exactly when it is spaces and tabs and then a part of the marker awaited |
| FenceReading.WhitespaceIs | crates/otto-fence/src/lib.rs:103-126 | white space is the 25 characters with the property White_Space of the Unicode standard |
| ToolRegistry.Connect | crates/otto-host/src/tools.rs:464-953 | for any endpoints and outcomes: one status per endpoint in order, the definitions, the eager servers, and every owned name routed exactly one way, to its owner |
| ToolRegistry.RegisterEager | crates/otto-host/src/tools.rs:876-904 | of an eager server's tools, the new names, first occurrence each, are owned, routed to its index and defined |
| ToolRegistry.RegisterBash | crates/otto-host/src/tools.rs:587-614 | the lazy set ends up with exactly the names nobody owned before, duplicates or not |
| ToolRegistry.OwnedIff | crates/otto-host/src/tools.rs:462 | a name is owned exactly when a connected endpoint advertises it |
| ToolRegistry.SurfaceIsOwned | crates/otto-host/src/tools.rs:759-774 | definitions before the synthetic one: one per owned name, no name twice |
| ToolRegistry.SurfaceFromOwner | crates/otto-host/src/tools.rs:749-775 | each is the first tool of its name in the list of the first connected endpoint advertising it |
| ToolRegistry.DefsDistinctIff | crates/otto-host/src/tools.rs:929-943 | all names are unique exactly when no connected endpoint advertises the synthetic name |
| ToolRegistry.ShownDistinctIff | crates/otto-host/src/tools.rs:1014-1021 | with the in-process definitions behind them, all names shown to the model are unique exactly when moreover no in-process tool has the synthetic name or one a connected endpoint advertises |
| ToolRegistry.ReadResourceTwice | crates/otto-host/src/tools.rs:929-943 | an endpoint with a tool of the synthetic name: two definitions, and the turn never reaches the endpoint |
| ToolRegistry.Call | crates/otto-host/src/tools.rs:1063-1103 | in-process names are refused, then the lazy set, then the routes, else unknown |
| ToolRegistry.CallReachesOwner | crates/otto-host/src/tools.rs:1063-1103 | a call reaches an endpoint exactly when it owns the name, and is unknown exactly when nobody advertises it |
| ToolRegistry.TurnReachesOwnerIff | crates/otto-host/src/session.rs:1429-1459 | in a turn an owned tool is reached exactly when it does not carry the synthetic name |
| ToolRegistry.DispatchReadResource | crates/otto-host/src/tools.rs:1147-1153 | the first eager server with the owner's label, or none if there is none |
| ToolRegistry.ReadReachesAnnouncerIff | crates/otto-host/src/tools.rs:1147-1153 | a read addressed to a connected eager endpoint's name goes to that endpoint exactly when no earlier one has its name |
| ToolRegistry.ReadReachesLastAnnouncerIff | crates/otto-host/src/session.rs:1442-1455 | over any run of announcements, a read of a resource goes to the endpoint that announced it last exactly when no earlier one has its name |
| LazyBash.LazySlot.constructor | crates/otto-host/src/tools.rs:627-638 | the slot starts empty |
| LazyBash.LazySlot.Dispatch | crates/otto-host/src/tools.rs:1178-1278 | reuse on an equal key; otherwise keep the old server if the new one does not come up, and replace it if it does, unless the call is dropped while the old one stops |
| LazyBash.LazySlot.Shutdown | crates/otto-host/src/tools.rs:1134-1141 | the slot is emptied and the server handed out to be stopped |
| LazyBash.RunOneLive | crates/otto-host/src/tools.rs:1253-1269 | over any run, of all servers started exactly the one in the slot, if any, was neither told to stop nor let go |
| LazyBash.SentToMatchingServer | crates/otto-host/src/tools.rs:1178-1278 | after any run a call is sent only to a live server whose key is the setting resolved for it; an unsent call leaves the slot alone if its spawn failed, and empties it if it was dropped in a swap |
| LazyBash.OverrideDecides | crates/otto-host/src/tools.rs:185-192 | after any run a call denied network is never sent to a server keyed with network, a call allowed it never to one without, and any other goes by the policy's answer |
| LazyBash.OverrideIgnoresPolicy | crates/otto-host/src/tools.rs:170-192 | under an override the policy's answer makes no difference |
| LazyBash.EmptiedIff | crates/otto-host/src/tools.rs:1223-1269 | before shutdown a filled slot is empty after a run exactly when a call was dropped while the old server stopped and no server came up since |
| LazyBash.StartsAreChanges | crates/otto-host/src/tools.rs:1211-1251 | with failures and dropped calls allowed, servers started equal the calls that could start one and differ from what the slot held |
| LazyBash.StartsWithoutFailures | crates/otto-host/src/tools.rs:1211-1251 | without failures that is one plus the adjacent changes of the resolved settings |
| LazyBash.NetAllowedFor | crates/otto-host/src/sandbox.rs:310-334 | the first matching pin in iteration order decides, then the built-in denial for bash, then the default |
| LazyBash.OccursIff | crates/otto-host/src/sandbox.rs:313-315 | an override matches a command that has its key anywhere in it |
| LazyBash.SettingIsKeyIff | crates/otto-host/src/tools.rs:1301-1317 | the setting computed for a spawn is that of its key, for every iteration order, exactly when no pinned matching override differs |
| LazyBash.NetworkIsKeyIff | crates/otto-host/src/sandbox.rs:440-544 | a spawned server has network as its key says, for every iteration order, exactly when it is wrapped and no pinned matching override differs, or it is not wrapped and the key grants network |
| LazyBash.DifferingPin | crates/otto-host/src/sandbox.rs:310-320 | with a pin for another matching key, a wrapped server follows the pin in one iteration order and the key in the other |
| LazyBash.UnwrappedHasNetwork | crates/otto-host/src/sandbox.rs:446-498 | with sandboxing off or the wrapper missing, a server whose key denies network has it |
| Interceptor.FindAncestorForm | crates/otto-canvas/src/interceptor.rs:168-180 | the first form on the way up, or none |
| Interceptor.InnermostForm | crates/otto-canvas/src/interceptor.rs:168-180 | that is the innermost form whose subtree holds the control: every other form around the control holds it too |
| Interceptor.CollectFormValues | crates/otto-canvas/src/interceptor.rs:186-193 | the named fields below the form, in document order |
| Interceptor.WalkInputs | crates/otto-canvas/src/interceptor.rs:197-216 | appends the named fields of the subtree in document order |
| Interceptor.MaybeSubmitEffect | crates/otto-canvas/src/interceptor.rs:117-164 | a submit control in a form opens the action with the encoded fields; anything else gives nothing |
| Interceptor.SubmittedFieldsRecovered | crates/otto-canvas/src/interceptor.rs:152-160 | whatever the fields hold, what stands behind the action and a question mark parses back to them, and without fields the URL is the action |
| Interceptor.SubmittedFieldsReadIff | crates/otto-canvas/src/interceptor.rs:152-160 | a URL reader's query (behind the first question mark, before any number sign) parses to exactly the fields iff the action has neither sign, or has a number sign and a query of its own that says the same |
| Interceptor.ActionWithQuery | crates/otto-canvas/src/interceptor.rs:152-160 | with an action such as "p?a" the reader does not find the one field submitted |
| Interceptor.InterceptMut | crates/otto-canvas/src/interceptor.rs:72-106 | the effect, the dirty flag and the new document of a click |
| Interceptor.ToggleDetailsParent | crates/otto-canvas/src/interceptor.rs:251-291 | a summary flips its parent if that is a details element, else nothing changes |
| Interceptor.ClickFlips | crates/otto-canvas/src/interceptor.rs:251-291 | a click keeps the tree and changes the open state of the toggled element and no other |
| Interceptor.AlikeAnswers | crates/otto-canvas/src/interceptor.rs:72-164 | documents that differ only in what is open and in written-out empty values answer every click alike |
| LinkTargets.ClassifiedIff | crates/otto-canvas/src/interceptor.rs:303-330 | a URL goes to the browser exactly when it begins with one of five schemes in whatever case, nowhere when it begins with one of three others or has a colon and two slashes otherwise, and into the conversation else |
| LinkTargets.ClickOpensSafely | crates/otto-canvas/src/interceptor.rs:72-164 | no click, on a link or a submit control, opens a blocked or foreign URL, and what it opens goes where its scheme says |
| LinkTargets.LinkOpensIff | crates/otto-canvas/src/interceptor.rs:31-44 | a click on a link opens its very address, unless that is blocked or foreign |
| LinkTargets.SubmitOpensIff | crates/otto-canvas/src/interceptor.rs:117-164 | a submit control opens its innermost form's action with a query that reads as the names and values of the form's fields in document order; any other control, or one outside a form, opens nothing |
| LinkTargets.SubmitControlIff | crates/otto-canvas/src/interceptor.rs:122-141 | a button submits unless it has another type, an input only by its type, in whatever case |
| LinkTargets.FieldsAreNamed | crates/otto-canvas/src/interceptor.rs:197-216 | the fields are the inputs, selects and text areas with a name that is not empty |
| LinkTargets.BrowserExamples | crates/otto-canvas/src/interceptor.rs:303-315 | one link for each of the five schemes |
| LinkTargets.BlockedExamples | crates/otto-canvas/src/interceptor.rs:315-323 | and for each blocked one, in mixed case |
| LinkTargets.OtherExamples | crates/otto-canvas/src/interceptor.rs:323-330 | a foreign scheme and a plain address |
| Dom.RootReaches | crates/otto-canvas/src/canvas.rs:363 | a walk from the root meets every node |
| Dom.BaseDocument.SetAttribute | crates/otto-canvas/src/canvas.rs:317-324 | sets one attribute of one element and nothing else |
| Dom.BaseDocument.ClearAttribute | crates/otto-canvas/src/interceptor.rs:277-285 | removes one attribute of one element and nothing else |
| FormEncoding.PercentEncode | crates/otto-canvas/src/interceptor.rs:231-246 | the loop builds the encoding byte by byte |
| FormEncoding.EncodedIsSafe | crates/otto-canvas/src/interceptor.rs:231-246 | an encoded component holds only unreserved characters of RFC 3986 section 2.3, percent signs and pluses, so no separator |
| FormEncoding.DecodeInvertsEncode | crates/otto-canvas/src/interceptor.rs:231-246 | form decoding gives every byte string back |
| FormEncoding.ParseInvertsEncode | crates/otto-canvas/src/interceptor.rs:220-226 | the parser of section 5.1 of the WHATWG URL Standard gives back exactly the pairs, in order, empty ones included |
| FormEncoding.QueryIsPlain | crates/otto-canvas/src/interceptor.rs:220-226 | a query has no question mark and no number sign |
| FormEncoding.MarkInFrontDiffers | crates/otto-canvas/src/interceptor.rs:152-160 | any text and a question mark in front of a query change what it parses to |
| FormEncoding.EmptyQueryIff | crates/otto-canvas/src/interceptor.rs:156-160 | the query is empty exactly when there are no pairs |
| Canvas.ApplyState | crates/otto-canvas/src/canvas.rs:274-328 | the two edit loops write all open flags and values whose ids name the right kind of element, and skip the rest |
| Canvas.CollectState | crates/otto-canvas/src/canvas.rs:334-365 | the walk collects exactly the open details and the named fields of the whole document |
| Canvas.CollectWalk | crates/otto-canvas/src/canvas.rs:337-357 | a walk adds what the subtree holds to the state |
| Canvas.ReplayIsAlike | crates/otto-canvas/src/canvas.rs:264-365 | replaying a collected log onto the source gives the document back, but for details open in the source and closed since |
| Canvas.ClickSimulates | crates/otto-canvas/src/canvas.rs:96-144 | one event on the log has the answer it has on the retained document, and the log goes on standing for it |
| Canvas.SameAnswers | crates/otto-canvas/src/canvas.rs:96-144 | from any restored log, after any clicks, the next effect, the dirty flag and all named values are those of the retained document |
| Canvas.SameOpenIff | crates/otto-canvas/src/canvas.rs:264-365 | what is shown open agrees with the retained document after every sequence of clicks exactly when no summary belongs to a details element open in the source |
| Canvas.OpenInSourceExample | crates/otto-canvas/src/canvas.rs:317-321 | one details element open in the source: after one click it is closed in the retained document and shown open |
| HtmlCanvas.HtmlCanvas.constructor | crates/otto-canvas/src/canvas.rs:67-78 | a new canvas has no cache, no focus and an empty log |
| HtmlCanvas.HtmlCanvas.Render | crates/otto-canvas/src/canvas.rs:397-519 | the cache becomes the focusable elements, the focus is kept in range or taken from the log, and the invariant holds |
| HtmlCanvas.HtmlCanvas.Dispatch | crates/otto-canvas/src/canvas.rs:96-144 | frozen or not yet rendered: nothing happens; otherwise effects and dirty flag are those of the retained document, which is clicked too |
| HtmlCanvas.HtmlCanvas.SetFocus | crates/otto-canvas/src/canvas.rs:157-170 | an index out of range clears the focus |
| HtmlCanvas.HtmlCanvas.SnapshotState | crates/otto-canvas/src/canvas.rs:180-198 | the log with the focused element's id, or nothing when all of it is empty |
| HtmlCanvas.HtmlCanvas.RestoreState | crates/otto-canvas/src/canvas.rs:200-215 | the log is taken over and the focus follows it if the element is in the cache |
| HtmlCanvas.FocusWalk | crates/otto-canvas/src/focus.rs:15-40 | the focusable elements of the subtree in document order |
| HtmlCanvas.ReplayKeepsFocusables | crates/otto-canvas/src/focus.rs:42-64 | replaying a log does not change what can be focused |
| HtmlCanvas.RestoreGivesSnapshotIff | crates/otto-canvas/src/canvas.rs:180-215 | restoring a snapshot into another rendered canvas gives that snapshot exactly when it has a focus or the other had none |
| HtmlCanvas.RestoreThenRender | crates/otto-canvas/src/canvas.rs:502-519 | restored before the first render, the snapshot comes back after it |
| HtmlCanvas.ClearedFocusStaysIff | crates/otto-canvas/src/canvas.rs:490-519 | a cleared focus stays cleared at the next render exactly when the log names no focusable element |
| HtmlCanvas.FocusableExactly | crates/otto-canvas/src/focus.rs:42-64 | exactly which elements of the document can be focused |
| HtmlCanvas.NonNegativeIff | crates/otto-canvas/src/focus.rs:59-63 | exactly which tab indexes are numbers that are not negative, at 32 bits |
| HtmlCanvas.DecimalReads | crates/otto-canvas/src/focus.rs:59-63 | the number some digits say |
| HtmlCanvas.SnapshotIs | crates/otto-canvas/src/canvas.rs:180-198 | a snapshot is the log with the focused element, and none is taken exactly when nothing is open, filled in, scrolled or focused |
| HtmlCanvas.RenderFocusIs | crates/otto-canvas/src/canvas.rs:490-519 | after a render the focus is in range, and the one before if that still is |
| CanvasStates.History.SetCanvasStates | crates/otto-host/src/session.rs:1595-1615 | the two loops put each state into the canvas with its number, counting canvases at the top level of all messages |
| CanvasStates.Collect | crates/otto-host/src/session.rs:1599 | of several states with one number the last counts |
| CanvasStates.CanvasesStated | crates/otto-host/src/session.rs:1595-1615 | exactly the canvas with the number of a state gets it; no canvas comes, goes or changes its source |
| CanvasStates.RunShown | crates/otto/src/app.rs:1268-1280 | over any session of turns, saves and resumptions a canvas known to be in the history is there with the source it was shown with, and every canvas streamed or replayed since the last resumption has a number |
| CanvasStates.AllShownIff | crates/otto-host/src/session.rs:1584-1594 | the history has a canvas for every number exactly when no turn that streamed one was lost since the last resumption |
| CanvasStates.OwnNumberIff | crates/otto-host/src/session.rs:1584-1594 | a canvas stands in the history at its own number exactly when, since the last resumption, neither its turn nor an earlier one that streamed a canvas was lost |
| CanvasStates.KeepsOwnIff | crates/otto/src/main.rs:1094-1113 | and exactly then it is saved with its own state whatever states are saved |
| CanvasStates.ResumeForgets | crates/otto/src/app.rs:1593-1601 | once a transcript is resumed the session, its numbers and the condition are those of a session that began with it |
| CanvasStates.LostTakesPlace | crates/otto/src/main.rs:1094-1113 | the state of a canvas whose turn failed is saved into the first one committed after it |
| Permissions.PermissionsFromRules | crates/otto-host/src/permissions.rs:259-269 | the two lists on disk are the rules with each decision, in order |
| Permissions.RulesFromPermissions | crates/otto-host/src/permissions.rs:248-257 | loading gives the allowing rules and then the denying ones |
| Permissions.ReloadPartitions | crates/otto-host/src/permissions.rs:220-269 | saving and loading is the stable partition, allowing rules first |
| Permissions.ReloadIdempotent | crates/otto-host/src/permissions.rs:220-269 | a second save and load changes nothing |
| Permissions.ReloadIsIdentityIff | crates/otto-host/src/permissions.rs:220-269 | a list survives as it is exactly when no allowing rule follows a denying one |
| Permissions.ReloadChangesAnswerIff | crates/otto-host/src/permissions.rs:560-565 | a call is answered differently after a reload exactly when its first match denies and some rule allows it; then it is allowed |
| Permissions.AddUpdatesTable | crates/otto-host/src/permissions.rs:487-514 | recording keeps one rule per key and updates the key of the call and no other |
| Permissions.PatternMatchesItsCall | crates/otto-host/src/permissions.rs:127-167 | the recorded pattern matches the call it was recorded for |
| Permissions.PromptedDecisionSticks | crates/otto-host/src/permissions.rs:402-430 | right after the recording, a call that was put to the user gets the recorded answer, and would after a restart at that point, whatever rules there were |
| Permissions.AddedAllIs | crates/otto-host/src/permissions.rs:499-502 | after any recordings the list is what they left of the old rules, and behind it the rules of the recordings nobody replaced, in order |
| Permissions.AnswerHoldsIff | crates/otto-host/src/permissions.rs:402-430 | whatever is recorded later, the answer to a prompted call holds in memory exactly when it is that of the earliest lasting recording that matches the call; so as long as its own rule is not replaced |
| Permissions.AnswerSurvivesRestartIff | crates/otto-host/src/permissions.rs:532-545 | after a restart an Allow holds exactly when some lasting recording that matches the call allows, and a Deny exactly when none does |
| Permissions.RestartUndoesDeny | crates/otto-host/src/permissions.rs:487-514 | a write below a path is denied for good, then a write to the path allowed: the lower path is refused until a restart and allowed after it |
| Permissions.RestartUndoesDenyAt | crates/otto-host/src/permissions.rs:487-514 | for example "/a/b" and then "/a", with the project in "/r" |
| Permissions.RecordedDecisionHoldsIff | crates/otto-host/src/permissions.rs:402-430 | for any call the recorded answer holds exactly when floor, front matter and earlier rules of other keys do not say otherwise |
| Permissions.PermissionPolicy.AddRule | crates/otto-host/src/permissions.rs:487-514 | the rule with the call's key is replaced at the end of the list, and what is written loads back as the partition of the new list |
| DefaultPolicy.UnaskedIff | crates/otto-host/src/permissions.rs:444-482 | a call off the floor that no rule is about is allowed exactly when it only looks at files or writes one below the root, by its components or by following it; every other call is put to the user |
| DefaultPolicy.FloorRefusesIff | crates/otto-host/src/permissions.rs:403-413 | the floor refuses exactly the calls with a sensitive path, whatever the rules |
| DefaultPolicy.FirstRuleDecides | crates/otto-host/src/permissions.rs:415-430 | off it the first rule about the call decides, front matter before file |
| DefaultPolicy.RecordedCovers | crates/otto-host/src/permissions.rs:127-167 | exactly which later calls of its tool a recorded answer covers: those at or below the path, those with the same first word, or all |
| DefaultPolicy.FirstWordIff | crates/otto-host/src/permissions.rs:140-146 | the first word is the first run of characters that are no spaces |
| DefaultPolicy.BlankCommandCoversAll | crates/otto-host/src/permissions.rs:140-146 | an answer recorded for good to a command of blanks allows every command |
| Paths.IsUnder | crates/otto-host/src/permissions.rs:586-607 | absolute: a component prefix of the root; relative with fewer than 2^31 components: no prefix goes above its start |
| Paths.StaysInside | crates/otto-host/src/permissions.rs:591-606 | the wrapping depth counter decides that for any components below the bound |
| Paths.NeverAboveIffResolves | crates/otto-host/src/permissions.rs:586-607 | the depth test holds exactly when following the path on a stack of names never leaves the root, and gives the depth it ends at |
| PathLaws.ComponentsBehind | crates/otto-host/src/permissions.rs:586-607 | what one more segment adds to the components of any path: nothing for an empty one or ".", a step up for "..", its name else |
| PathLaws.ComponentsStart | crates/otto-host/src/permissions.rs:586-607 | the components of a path that is one segment, with or without a slash in front |
| PathLaws.SegmentLeads | crates/otto-host/src/permissions.rs:586-607 | where a relative path leads with one more segment; ".." takes the last name back or leaves the root |
| SensitivePaths.StemMatchIffRun | crates/otto-host/src/sensitive_paths.rs:113-120 | the four string tests hold exactly when the segments of the stem, any stem, are a contiguous run of the segments of the path |
| SensitivePaths.SensitiveIff | crates/otto-host/src/sensitive_paths.rs:100-120 | a path is sensitive exactly when its last segment is a dotenv name or some stem is such a run, backslashes separating too |
| SensitivePaths.FrontKeepsSensitive | crates/otto-host/src/sensitive_paths.rs:92-106 | directories in front keep a sensitive path sensitive |
| SensitivePaths.BelowSensitiveIff | crates/otto-host/src/sensitive_paths.rs:92-106 | exactly when a path below another is sensitive; a stem shields all below it, a dotenv name only itself |
| SensitivePaths.DotenvDirectoryEscapes | crates/otto-host/src/sensitive_paths.rs:95-111 | ".env" is sensitive and a plain name below it is not |
| SensitivePaths.DotNeeded | crates/otto-host/src/sensitive_paths.rs:38-46 | a path without a dot is never sensitive |
| SensitivePaths.LastSegmentIsLast | crates/otto-host/src/sensitive_paths.rs:108-111 | the text after the last slash is the last segment |
| PathLaws.NameSensitiveIff | crates/otto-host/src/sensitive_paths.rs:38-46 | a single name is sensitive exactly when it is ".env", begins with ".env." or is one of five |
| PathLaws.PairSensitiveIff | crates/otto-host/src/sensitive_paths.rs:38-46 | exactly which two names, one below the other, are |
| Strikes.StrikeCounter.RecordAt | crates/otto-plugin-wasm/src/strikes.rs:73-91 | expired strikes leave from the front, the new one is added, and the length decides |
| Strikes.StrikeCounter.Reset | crates/otto-plugin-wasm/src/strikes.rs:96-98 | every strike is forgotten |
| Strikes.PrunedIsWindowIff | crates/otto-plugin-wasm/src/strikes.rs:79-81 | popping from the front filters the queue to the window exactly when no expired strike is behind a live one |
| Strikes.QueueIsWindow | crates/otto-plugin-wasm/src/strikes.rs:73-98 | with a clock that never goes back, the queue is the log since the last reset cut to the closed window, and sorted |
| Strikes.DisablesIffLimitInWindow | crates/otto-plugin-wasm/src/strikes.rs:82-90 | then a strike disables exactly when at least the limit of recorded strikes lie in the window |
| Strikes.QueueIsWindowIff | crates/otto-plugin-wasm/src/strikes.rs:73-91 | for instants in any order, the queue after a strike is the window of the log exactly when nothing expired stands behind something live and nothing dropped earlier is live again |
| Strikes.DisablesIff | crates/otto-plugin-wasm/src/strikes.rs:82-90 | for instants in any order, a strike disables exactly when the strike that makes up the limit has not been expelled by later ones |
| Strikes.DisablesAsWindow | crates/otto-plugin-wasm/src/strikes.rs:82-90 | without something expired behind something live no strike disables too early, and without something dropped that is live again none fails to disable |
| Strikes.OutOfOrderOvercounts | crates/otto-plugin-wasm/src/strikes.rs:66-90 | recorded out of order, a strike disables with two in the window |
| Strikes.OutOfOrderUndercounts | crates/otto-plugin-wasm/src/strikes.rs:66-90 | recorded out of order, the third strike in the window does not disable |
| Resources.ResourceCache.MarkUpdated | crates/otto-host/src/resources.rs:37-46 | the fields stay those of the run of events with this announcement behind |
| Resources.ResourceCache.DrainDirty | crates/otto-host/src/resources.rs:58-62 | a strictly sorted listing of exactly the resources announced since the drain before |
| Resources.ResourceCache.Owner | crates/otto-host/src/resources.rs:48-52 | the owner named by the last announcement of the resource, and none exactly when it was never announced |
| Resources.ListingUnique | crates/otto-host/src/resources.rs:54-57 | a set has one strictly sorted listing, so drains are deterministic |
| Resources.DirtyIsMarkedSinceDrain | crates/otto-host/src/resources.rs:8-11 | over any run a resource is dirty exactly when it was marked after the last drain |
| Resources.EntryIsLastMark | crates/otto-host/src/resources.rs:37-52 | over any run an entry exists exactly for the marked resources and holds the last marker's owner and the saturated position of that mark |
| Resources.LaterMarkIsGreaterIff | crates/otto-host/src/resources.rs:22-24 | a later mark has a greater number exactly until the earlier one is at the 64-bit bound |

## Left out

- PoolProtocol.DrainWaitsForAll: says when a Drain stops, not that it does; the grace deadline and the polling interval are steps that may come at any time.
- PromptGate.GateIsSound: ids are unbounded numbers; the wrap-around of the 64-bit counter is not modelled.
- HardAbort.DeadlineEndsRegistered: says that aborted calls are over once the aborts have landed, not that they land; it promises nothing for a turn that has its lease but has not registered its handle, which the code does not abort.
- CanvasStates.KeepsOwnIff: turns follow one another and nothing else writes the history; all top-level canvases are the assistant's; numbers are unbounded, not 32 bits wide; a committed turn's streamed canvases are the canvases of its answer.
- LazyBash.NetworkIsKeyIff: of what a wrapper does, only the network; whether its binary is found is given.
- Permissions.AnswerSurvivesRestartIff: speaks of one restart after the recordings, not of recordings after it.
- Paths.IsUnder: says nothing about relative paths of 2^31 components or more, where the 32-bit depth overflows and the outcome depends on the build.
- Strikes.QueueIsWindow: needs instants in the order in which they are recorded; for any order see Strikes.QueueIsWindowIff.
- Subagent.RunSubagent: takes the number of observed iterations as a parameter because the loop itself has no limit.
- LazyBash.SentToMatchingServer: a server told to stop, or let go with a dropped call, counts as stopped; a failed stop is only logged by the host.
- Additions and removals of providers whose own future is dropped part of the way.
- Wire protocols, process creation, standard-error redirection and OAuth: each is an outcome given to the model.
- HTML parsing, layout, hit testing and painting: the document tree, its ids (the same at every parse) and the node an event hits are given; trees are assumed well formed, and raw event dispatch is assumed not to change them.
- Node ids as decimal strings in the state log, and log keys that are not numbers.
- Router prefix parsing and the choice of provider: a turn is given the provider it was routed to.
- JSON, TOML and YAML text and the files holding it: saved shapes are modelled, decoding is assumed to undo encoding.
- The wording of prompts, errors and denials, and the truncation of summaries.
- The choice of the active provider, context and token accounting, and events sent to the interface.
- Forwarding the deltas of a stream to the interface: each event is passed on or dropped by its kind.
- The pre-tool gate of plugins: its refusals are tool outcomes like any other.
- Unicode normalisation: file names and commands are compared as the characters they are.
