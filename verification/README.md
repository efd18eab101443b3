# A verified model of the agent core

This project models the parts of the agent harness whose correctness is an
argument over many steps, and proves what they promise with Dafny 4.11. `dafny
verify dfyconfig.toml` checks all of it. One module stands for one source
component:

- **Transcript** (`Unicode`, `Json`, `JsonProofs`, `Balance`, `Transcript`,
  `CrashRecovery`, `TranscriptFiles`, `AppendProtocol`). One JSON object per line,
  as bytes. The UTF-8 codec with replacement, the printer and the parser of RFC 8259
  (section 4 for objects, section 7 for strings) as Python's `json` has them, and a
  scanner that carries bracket depth, in-string and after-backslash. On these rest
  the crash-recovery theorem (appends cut at any byte) and the multi-writer protocol
  (seek, short writes, a sidecar lock, holders that die).
- **Token counts** (`TokenCache`, `TokenEstimation`). The LRU cache, and the block
  estimator that re-enters it while an outer call is between its miss and its put.
- **Worker lifecycle** (`TasksCore`, `TaskRegistry`, `PromotionAccounting`,
  `ResumeAgent`, `ForegroundRace`, `CostTracker`). Step systems with any number of
  threads: taking a lock, reading, writing and releasing are separate steps, and the
  theorems hold for every interleaving. Beside the safety theorems stand runs that go
  through: an append, a cost record, a promotion and a resume that find their lock free.
- **Message pairing** (`Trajectory`, `TrajectoryFields`, `AgentMessages`, `ToolCalls`,
  `Fork`). Tool results are matched with the calls they answer; step objects are shared
  through a map and updated through it.
- **Merging and selection** (`Config`, `ConfigManagers`, `PickBatch`, `Agents`). The
  recursive merge and its algebra, managers with private caches over one file, the
  fair round robin, and the last-wins merge.

Code that changes state step by step is written as classes, methods and loops, each
proved against a specification function; the theorems are lemmas about these
functions. A Python `str` is a sequence of code points, surrogates included. A
Python exception is a case of the result type.

## Where the code does not do what its documentation says

- `TranscriptWriter.append` says that it appends the whole line or nothing. A call
  that takes nothing after one that took part of the line leaves that part
  (`TranscriptFiles.WriteCanTear`; `TranscriptFiles.TearsIff` says for which answers of
  the system).
- `_block_cache_key` says that no exception ever reaches the caller. A block whose
  `type` is a list or a dict gives a key that cannot be hashed, and the lookup raises
  (`TokenEstimation.UnhashableTypeRaises`; `TokenEstimation.MemoAgreesIff` says when
  the cache changes nothing).
- `resume_agent_background` says that failed admission leaves the terminal state
  intact. A first launch that fails under a waiting caller can leave a task marked
  running with no worker (`ResumeAgent.RefusalCanStrand`); this happens exactly when
  the caller then finds the continuation gone and nobody has killed the task it
  published (`ResumeAgent.RefusalRestoresIff`).
- The module documentation of `foreground_promotion` says that no message is lost in
  the transition. A `next` that delivers while its cancellation is drained is
  discarded, as a comment in the code admits (`ForegroundRace.MessageCanBeLost`;
  `ForegroundRace.LostIff` says when).
- `load_global_for_write` says that every writer of a whole tier must re-read it from
  disk. `set_project` writes back its cached copy, and another manager's key can be
  lost (`ConfigManagers.ProjectWriteCanLose`, `ConfigManagers.ProjectWriteKeepsIff`).
- `filter_incomplete_tool_calls` treats a call with an empty id as unanswered even when
  a result with an empty id exists (`ToolCalls.EmptyIdTurnIsDropped`,
  `ToolCalls.LargestIff`), and it leaves behind the results of a turn that it drops
  (`ToolCalls.PartlyAnsweredTurnLeavesAnOrphan`, `ToolCalls.OrphansIff`). So a forked
  pair whose parent calls a tool with an empty id does not survive the filter whole
  (`Fork.TrailingPairIsKept`).

## Model

| member | source | states |
|---|---|---|
| Unicode.DecodeEncode | src/agent/transcript.py:367 | decoding undoes encoding for text without surrogates, whatever follows |
| Unicode.DecodeStepOfTorn | src/agent/transcript.py:355-367 | a character cut short costs one replacement character, and decoding is in step again at the next ASCII byte |
| JsonProofs.LoadsPrint | src/agent/transcript.py:163-166 | `json.loads` undoes `json.dumps` for every printable value, compact or spaced, ASCII or not |
| JsonProofs.LastMemberWins | src/agent/transcript.py:371 | of members with the same key a parsed dict keeps the last |
| JsonProofs.PrintInjective | src/token_estimation.py:394-398 | two printable values with the same JSON text are equal |
| Balance.AcceptedIsClosed | src/agent/transcript.py:370-371 | text that starts an object and is accepted ends at depth 0 outside a string |
| Balance.PrefixIsOpen | src/agent/transcript.py:163-166 | every proper non-empty prefix of a complete object is still inside it |
| Balance.OpenIsRejected | src/agent/transcript.py:370-382 | text that ends inside the object it opened does not parse |
| Balance.GluedIsRejected | src/agent/transcript.py:370-382 | a complete object glued onto an open or closed one does not parse: an in-string cut flips inside and outside for the rest |
| Transcript.PrintIsClean | src/agent/transcript.py:163-166 | a printed value holds no control character, hence no raw newline, and no surrogate |
| Transcript.StylesShow | src/agent/transcript.py:164-166 | a cache key is plain ASCII, a transcript line keeps readable characters as they are |
| Transcript.SerializedShape | src/agent/transcript.py:142-168 | every serialized message is one complete object that parses back to its payload |
| Transcript.ReadWholeLine | src/agent/transcript.py:367-371 | a whole line reads as its message, with or without its newline |
| Transcript.BlankLines | src/agent/transcript.py:367-369 | a line of nothing but its line ending is blank |
| TranscriptFiles.TranscriptWriter.Append | src/agent/transcript.py:262-289 | for any answers of `os.write` the file grows by exactly the bytes they take, the append succeeds exactly when that is the whole line, and it is the whole line or nothing exactly when the answers do not tear it; a closed writer and text that cannot be encoded leave the file alone |
| TranscriptFiles.TearsIff | src/agent/transcript.py:281-289 | a line is written in part exactly when the first call to take nothing comes after calls that together took less than all of it |
| TranscriptFiles.WriteCanTear | src/agent/transcript.py:284-288 | one byte taken and then none tears any message |
| TranscriptFiles.TranscriptWriter.Close | src/agent/transcript.py:291-300 | closing is final and can be repeated |
| TranscriptFiles.TranscriptReader.ReadAll | src/agent/transcript.py:347-388 | every parseable line in order; a missing file is empty; one warning per reader however many lines are bad |
| TranscriptFiles.AppendAll | src/agent/transcript.py:262-289 | after any run of appends under any answers the file is that of their history, each whole or torn where the system stopped |
| TranscriptFiles.WriteThenRead | src/agent/transcript.py:262-388 | a reader then gets the survivors of that history when a whole append separates its tears, and when no write failed all messages, each dict with all its members |
| CrashRecovery.TornDecode | src/agent/transcript.py:355-367 | a cut through an encoded line decodes to a prefix of its text, plus at most one replacement character |
| CrashRecovery.ReadTail | src/agent/transcript.py:367-382 | a torn tail alone reads as nothing, unless only its newline is missing |
| CrashRecovery.ReadGluedLine | src/agent/transcript.py:367-382 | a whole line that landed on a torn tail is unparseable, so no unwritten record appears |
| CrashRecovery.ReadsSurvivors | src/agent/transcript.py:347-388 | for any history of appends torn at any byte, with a whole append between any two tears, the reader yields exactly the whole appends that did not land on a torn tail, in order, and a last line that lost only its newline |
| CrashRecovery.LossBound | src/agent/transcript.py:262-289 | each crash costs at most one completed message |
| CrashRecovery.SurvivorsInOrder | src/agent/transcript.py:347-388 | what comes back is a subsequence of what was appended |
| CrashRecovery.RoundTrip | src/agent/transcript.py:262-388 | written and read back, a list of messages gives their payloads in the same order |
| CrashRecovery.DictsRoundTrip | src/agent/transcript.py:157-166 | a list of dicts comes back as it is, every member in its place |
| CrashRecovery.StandIns | src/agent/transcript.py:154-168 | what is read back is the dict itself, or the `repr` of another object, with the error when it could not be dumped |
| CrashRecovery.AdjacentTearsGlue | src/agent/transcript.py:359-371 | two adjacent torn tails can read as a record that nobody wrote, so the separation is needed |
| AppendProtocol.FileIsGrantsInOrder | src/agent/transcript.py:176-221 | for every interleaving of seeks, short writes and deaths, whenever the lock is free the file is the granted appends in lock order, each whole unless its holder died in it, and every writer's messages are there in its own order |
| AppendProtocol.ReaderSeesSurvivors | src/agent/transcript.py:192-193 | a reader that comes while the lock is free gets exactly the surviving appends |
| AppendProtocol.WholeLinesInLockOrder | src/agent/transcript.py:281-289 | without crashes it gets every append that held the lock, none lost, overwritten or mixed |
| AppendProtocol.AppendGoesThrough | src/agent/transcript.py:281-289 | a writer waiting for a free lock gets its whole line out, also when the first write is short |
| AppendProtocol.WriterWaits | src/agent/transcript.py:200-210 | a writer that finds the lock taken retries and changes nothing |
| AppendProtocol.DeathFreesTheLock | src/agent/transcript.py:192-193 | a holder that dies frees the lock, and its append is torn where it stopped |
| TokenCache.TokenCountCache.Get | src/token_estimation.py:86-97 | the cached value and its move to the recent end, or a miss; the counters |
| TokenCache.TokenCountCache.Put | src/token_estimation.py:99-107 | replace in place and move, or append and evict the oldest over the bound |
| TokenCache.LruExact | src/token_estimation.py:56-107 | after any run of gets and puts the cache holds exactly the last `max_size` distinct touched keys, least recent first |
| TokenEstimation.CountTokens | src/token_estimation.py:150-166 | from a right cache, the tokenizer's count or the fallback, and a right cache again |
| TokenEstimation.TextsExact | src/token_estimation.py:150-166 | after any texts the cache holds exactly the last distinct non-empty ones |
| TokenEstimation.LargerCacheHits | src/token_estimation.py:99-107 | every hit of a smaller cache is a hit of a larger one |
| TokenEstimation.SameKeySameTokens | src/token_estimation.py:229-255 | blocks with equal keys have equal estimates, although a string and a dict of type `str` can share one |
| TokenEstimation.EstimateBlock | src/token_estimation.py:291-300 | from every sound cache the memoised estimate is the uncached recursion's, though nested calls insert and evict meanwhile; it raises exactly on unhashable types and on content that cannot be iterated; and a block that can be cached is in the cache afterwards |
| TokenEstimation.EstimateUncached | src/token_estimation.py:258-288 | the body that re-enters the cache agrees with the pure recursion |
| TokenEstimation.RoughIsNearest | src/token_estimation.py:169-170 | rounding to the nearest, halves to the even neighbour |
| TokenEstimation.TextBlockTokens | src/token_estimation.py:264-266 | a text block is estimated by its text |
| TokenEstimation.ToolUseTokens | src/token_estimation.py:275-278 | a call by its name and the JSON of its input |
| TokenEstimation.ThinkingTokens | src/token_estimation.py:280-282 | a thinking block by its thinking |
| TokenEstimation.RedactedTokens | src/token_estimation.py:284-286 | a redacted one by its data |
| TokenEstimation.PictureTokens | src/token_estimation.py:268-269 | an image or a document counts 2000 |
| TokenEstimation.ToolResultTokens | src/token_estimation.py:271-273 | a result by its content: a string, the sum over a list, or nothing |
| TokenEstimation.ItemTokensAdd | src/token_estimation.py:223-226 | the estimates of a list add up |
| TokenEstimation.OtherTokens | src/token_estimation.py:288 | any other dict by its own JSON |
| TokenEstimation.EstimateContent | src/token_estimation.py:216-226 | a string, a list of blocks, nothing, or a dict (by its keys), as the recursion counts them |
| TokenEstimation.EstimateMessages | src/token_estimation.py:187-213 | the total over messages and attachments is the recursion's |
| TokenEstimation.TurnTokens | src/token_estimation.py:376-385 | a turn is estimated by the content inside its message dict, or its own |
| TokenEstimation.AttachmentTokens | src/token_estimation.py:401-410 | an attachment by a string or a list it holds |
| TokenEstimation.OtherMessageTokens | src/token_estimation.py:196-213 | a message of another type counts nothing |
| TokenEstimation.EstimateIff | src/token_estimation.py:223-226 | the recursion has an estimate exactly for the blocks in which no visited tool result holds a boolean or a number as its content |
| TokenEstimation.MemoAgreesIff | src/token_estimation.py:246-254 | the cache changes nothing exactly when no visited block has a list or a dict as its type, or some visited content cannot be iterated over, which raises in either case |
| TokenEstimation.UnhashableTypeRaises | src/token_estimation.py:246-254 | a block whose type is a list is counted without the cache and raises with it |
| TokenEstimation.BlockBound | src/token_estimation.py:258-288 | four times a block's estimate is within two per text leaf of the characters of the fields it shows, each picture counting 2000 |
| TokenEstimation.MessagesBound | src/token_estimation.py:169-226 | the same bound for any nested message list |
| ResumeAgent.AtMostOneWorker | src/agent/resume_agent.py:56-96 | for any callers, kills, evictions and finishing workers at most one worker is alive, and a set `finished` means none is |
| ResumeAgent.StartsAfterFinish | src/agent/resume_agent.py:21-33 | a run starts only when all workers started before it have set `finished` |
| ResumeAgent.SuccessesAreLaunches | src/agent/resume_agent.py:36-44 | with nobody in the lock there are as many successful results as launches |
| ResumeAgent.ResumeWorks | src/agent/resume_agent.py:56-96 | from any world with a finished or evicted agent, the event set and the lock free, every step of a call is enabled and it ends in a success with one more worker and a running task |
| ResumeAgent.FinishedAgentIsResumed | src/agent/resume_agent.py:56-96 | a reachable instance: launched, completed, resumed |
| ResumeAgent.KilledAgentIsResumed | src/agent/resume_agent.py:21-27 | another: launched, killed, evicted, resumed |
| ResumeAgent.TurnedAwayIff | src/agent/resume_agent.py:57-76 | before the lock a call is turned away exactly when there is no continuation, or the task is of another type or has not ended |
| ResumeAgent.LockIsGivenBack | src/agent/resume_agent.py:77-96 | a call in the lock is never stuck, and its return frees the lock |
| ResumeAgent.RefusalRestoresIff | src/agent/resume_agent.py:77-95 | a refused call leaves a task that can be resumed, or the one another caller runs, exactly when it does not clear the event of a continuation that is gone, or the task it published has been killed by then |
| ResumeAgent.RefusalCanStrand | src/tool_system/tools/agent.py:1086-1102 | a run of fifteen steps in which a refused call leaves the task running with no worker |
| ResumeAgent.ResumeReplaysConversation | src/agent/resume_agent.py:47-53 | resume replays exactly the user, assistant and system messages appended, in order |
| ResumeAgent.RoleIsMember | src/agent/resume_agent.py:51-52 | an entry is replayed exactly when its role member is user, assistant or system |
| ResumeAgent.ReplayRaisesIff | src/agent/resume_agent.py:51-52 | the replay raises exactly when some entry's role is a list or a dict |
| ForegroundRace.RunWithBackgroundEscape | src/agent/foreground_promotion.py:124-205 | for every schedule of what `wait` finds done: the race's outcome, no child task left pending when the call ends, a task awaited outside the wait only after it was cancelled, the callback once and at rest when the flag is True and otherwise never, and the messages taken from the iterator |
| ForegroundRace.RaceOutcome | src/agent/foreground_promotion.py:133-138 | the outcome in closed form: messages are a prefix of the yields, and the flag is False only when all were delivered |
| ForegroundRace.SignalTogetherChangesNothing | src/agent/foreground_promotion.py:158-195 | in a round whose `next` is done the signal changes neither the outcome nor what is taken from the iterator |
| ForegroundRace.ReadyTogetherIsDelivered | src/agent/foreground_promotion.py:186-205 | a message done together with the signal is in the result at its place |
| ForegroundRace.LostIff | src/agent/foreground_promotion.py:163-176 | a message is lost exactly when the first round without a ready `next` comes before the last message and its `next` delivers while it is drained; never more than one |
| ForegroundRace.MessageCanBeLost | src/agent/foreground_promotion.py:163-176 | the signal alone, with such a `next`, returns nothing of one message |
| TaskRegistry.RuntimeTaskRegistry.Upsert | src/task_registry.py:118-121 | inserts or replaces one entry, keeps the order and all others |
| TaskRegistry.RuntimeTaskRegistry.Remove | src/task_registry.py:123-126 | drops one entry and says whether it was there |
| TaskRegistry.RuntimeTaskRegistry.Update | src/task_registry.py:128-168 | installs the mutator's image of one entry; coroutines and absent entries change nothing; the mutator's own mark is set from the entry it was given |
| TaskRegistry.RuntimeTaskRegistry.RegisterForeground | src/agent/foreground_promotion.py:57-76 | clears the flag of a local agent and nothing else |
| TaskRegistry.RuntimeTaskRegistry.RegisterBackground | src/agent/foreground_promotion.py:79-104 | True exactly when this call set the flag of a running foreground agent |
| TaskRegistry.RuntimeTaskRegistry.UnregisterForeground | src/agent/foreground_promotion.py:107-116 | drops the entry |
| PromotionAccounting.PromotionsAddUp | src/agent/foreground_promotion.py:79-104 | over any interleaving promotions and demotions alternate, only a running task is promoted, and True results are as many as promotions |
| PromotionAccounting.FlipsTouchOnlyTheFlag | src/task_registry.py:150-168 | a flip changes no other field and neither adds nor drops the task |
| PromotionAccounting.PromotionGoesThrough | src/agent/foreground_promotion.py:92-104 | a running foreground agent is promoted and the call says so; any other is left as it is |
| PromotionAccounting.DemotionGoesThrough | src/agent/foreground_promotion.py:69-76 | a local agent ends up in the foreground |
| PromotionAccounting.EndGoesThrough | src/task_registry.py:150-168 | a task that has not ended takes its terminal status and keeps its flag |
| CostTracker.NoLostUpdates | src/cost_tracker.py:32-83 | once all calls have returned, each model's usage is the sum of all recorded deltas, and the total cost the sum of the models' costs |
| CostTracker.RunLosesNothing | src/cost_tracker.py:59-82 | in every reachable state what is stored and what is in flight make up what was requested |
| CostTracker.NeverDeadlocks | src/cost_tracker.py:59-65 | the nested acquire never blocks the lock's own holder |
| CostTracker.DeltaColumns | src/cost_tracker.py:46-58 | each usage field goes to the column of its name, a subscription is free, and what is no dict counts nothing |
| CostTracker.CallGoesThrough | src/cost_tracker.py:65-83 | a call that finds the lock free adds its usage to its model and its cost to the total, and gives the lock back |
| Trajectory.SplitContent | eval/harbor/clawcodex_agent.py:1395-1423 | one pass gives the stripped text, the reasoning, the calls and the results of a message |
| Trajectory.StepsFromConversation | eval/harbor/clawcodex_agent.py:1453-1525 | the mutated step objects show one step per opening message, numbered from 1, each holding the results placed at it |
| Trajectory.StepsFromStream | eval/harbor/clawcodex_agent.py:1527-1581 | the same from events, a later result replacing the earlier one |
| Trajectory.BuildTrajectory | eval/harbor/clawcodex_agent.py:1345-1385 | the conversation when there is one, else the stream behind the instruction with every id shifted; None exactly when there is no step |
| Trajectory.LatestStepIsLatest | eval/harbor/clawcodex_agent.py:1496-1505 | the map of pending steps gives the latest step that issued an id, and misses exactly the ids nobody issued |
| Trajectory.IdsAreConsecutive | eval/harbor/clawcodex_agent.py:1356-1367 | step ids are 1 to n on both paths, also behind the instruction |
| Trajectory.ObservationsAnswerCalls | eval/harbor/clawcodex_agent.py:1498-1515 | every observation sits on a step that issued its call id |
| Trajectory.ConversationKeepsEveryResult | eval/harbor/clawcodex_agent.py:1498-1515 | every result whose id an earlier turn issued is attached exactly once, in message order, to the latest such step |
| TrajectoryFields.StripTakesSpace | eval/harbor/clawcodex_agent.py:1420-1421 | stripping takes the space at both ends and nothing else |
| TrajectoryFields.JoinConcat | eval/harbor/clawcodex_agent.py:1420-1421 | the parts are stripped and joined in order by empty lines, blank ones left out |
| TrajectoryFields.SplitConcat | eval/harbor/clawcodex_agent.py:1405-1419 | blocks are sorted one by one and keep their order |
| TrajectoryFields.SplitOne | eval/harbor/clawcodex_agent.py:1408-1419 | where each kind of block goes |
| TrajectoryFields.CallsConcat | eval/harbor/clawcodex_agent.py:1472-1483 | calls keep the order of their blocks |
| TrajectoryFields.CallsOne | eval/harbor/clawcodex_agent.py:1473-1482 | a call's id, name and arguments from its block's own fields |
| TrajectoryFields.ResultReachesItsStep | eval/harbor/clawcodex_agent.py:1498-1515 | the latest step that issued an id shows the result's own content and error flag |
| TrajectoryFields.LatestResultIsShown | eval/harbor/clawcodex_agent.py:1557-1568 | on the stream path a step shows the last result that came for it, with its content |
| TrajectoryFields.AtConcat | eval/harbor/clawcodex_agent.py:1512-1515 | the observations of a step keep the order of the log |
| TrajectoryFields.TurnOpensStep | eval/harbor/clawcodex_agent.py:1473-1497 | an assistant turn opens a step with its text, its reasoning and its calls |
| TrajectoryFields.PlainTurnOpensStep | eval/harbor/clawcodex_agent.py:1399-1400 | a turn whose content is a string says that string |
| TrajectoryFields.UserOpensStepIff | eval/harbor/clawcodex_agent.py:1516-1524 | a user message opens a step exactly when it has text and no tool results; meta messages change nothing |
| TrajectoryFields.EventOpensStep | eval/harbor/clawcodex_agent.py:1535-1580 | which events open a step, and what it shows |
| TrajectoryFields.InstructionOpens | eval/harbor/clawcodex_agent.py:1387-1393 | the instruction opens the trace exactly when it is not blank |
| ToolCalls.FilterIncompleteToolCalls | src/agent/run_agent.py:221-272 | the two loops keep exactly the messages whose calls are all answered |
| ToolCalls.FilteredIsComplete | src/agent/run_agent.py:226-228 | in the result every call of an assistant turn has a user result, also after the drops |
| ToolCalls.FilteredIsLargest | src/agent/run_agent.py:221-272 | every order-preserving sublist that is complete and calls no empty id is a sublist of the result |
| ToolCalls.LargestIff | src/agent/run_agent.py:246-269 | without the side condition on ids, exactly when each turn that calls an empty id has an unanswered call |
| ToolCalls.Idempotent | src/agent/run_agent.py:221-272 | filtering twice is filtering once |
| ToolCalls.OrphansIff | src/agent/run_agent.py:265-269 | results keep their calls exactly when each answered id is called by a turn that is kept |
| ToolCalls.PartlyAnsweredTurnLeavesAnOrphan | src/agent/run_agent.py:265-269 | a partly answered turn goes and its result stays |
| ToolCalls.EmptyIdTurnIsDropped | src/agent/run_agent.py:247-269 | a turn that calls an empty id goes although a result answers it |
| Fork.BuildForkedMessages | src/agent/fork_subagent.py:183-253 | the cloned turn and one user message: a placeholder per call, in order, then the directive; the directive alone without calls |
| Fork.ForkedShape | src/agent/fork_subagent.py:219-253 | the clone is the parent but for its uuid; the user message ends in the wrapped directive |
| Fork.PlaceholdersConcat | src/agent/fork_subagent.py:236-245 | the placeholders follow the order of the calls |
| Fork.PlaceholderOne | src/agent/fork_subagent.py:238-245 | each carries its call's id and the same text |
| Fork.PairsAgree | src/agent/fork_subagent.py:131-169 | for two directives the request differs in the last text block only, and there only from the directive on |
| Fork.TrailingPairIsKept | src/agent/run_agent.py:361-368 | the filter keeps the pair whole exactly when the parent calls no tool with an empty id |
| Fork.IsInForkChild | src/agent/fork_subagent.py:101-128 | True exactly when a text block of a user message shows the tag |
| Fork.NoTagNoFork | src/agent/fork_subagent.py:110-128 | without the bracket that opens a tag no conversation is taken for a forked one |
| Fork.ForkIsRecognised | src/agent/fork_subagent.py:101-128 | after filtering, a forked context is still recognised as one |
| Config.DeepMerge | src/config.py:88-96 | the loop, in any order of keys, computes the recursive merge |
| Config.PathLaw | src/config.py:88-96 | along every path the upper tier decides, unless it has nothing there and no leaf on the way |
| Config.KindsDetermine | src/config.py:88-96 | the path law characterises the merge: values that agree along all paths are equal |
| Config.EmptyIsIdentity | src/config.py:88-96 | the empty dict is the identity on both sides |
| Config.Idempotent | src/config.py:88-96 | merging a value into itself changes nothing |
| Config.Absorbs | src/config.py:88-96 | merging the same base in again changes nothing |
| Config.AssociativeIff | src/config.py:287-288 | merging three tiers is associative exactly when each dict that replaces a non-dict covers the dict below it |
| Config.AssociativeWithoutClash | src/config.py:287-288 | in particular when no path is dict, non-dict, dict |
| Config.TrustBoundary | src/config.py:282-289 | an untrusted merge is the global tier on the blocked keys and the trusted merge on all others |
| Config.BlockedKeysAre | src/config.py:172-174 | the three keys an untrusted directory has no say on |
| Config.Precedence | src/config.py:266-289 | along every path local decides before project and project before global, where untrusted tiers have no say on the blocked keys |
| ConfigManagers.ConfigManager.InvalidateCaches | src/config.py:228-231 | drops all three caches |
| ConfigManagers.ConfigManager.LoadGlobal | src/config.py:235-240 | the cached tier, or the file over the defaults, cached |
| ConfigManagers.ConfigManager.LoadGlobalForWrite | src/config.py:242-252 | what is on disk now, whatever the cache held |
| ConfigManagers.ConfigManager.GetMerged | src/config.py:266-289 | the cached or loaded tiers merged under the current verdict of trust, as the precedence row says |
| ConfigManagers.ConfigManager.SetGlobal | src/config.py:316-319 | the file becomes the defaults under the disk's tier with the key set, and the cache is dropped |
| ConfigManagers.ConfigManager.SetProject | src/config.py:321-324 | writes the cached project tier back with the key set, as the step the two rows on project writes are about, or reports that there is no repository |
| ConfigManagers.FileAfter | src/config.py:235-319 | after any run of any managers with stale caches: what the file holds for every key |
| ConfigManagers.LeavesSurvive | src/config.py:242-252 | every leaf of the last value set for a key stays on disk until the key is set again |
| ConfigManagers.CachesAreSnapshots | src/config.py:235-240 | every cache is the tier as it stood at some point of the run |
| ConfigManagers.ProjectWriteKeepsIff | src/config.py:321-324 | a project write keeps the other keys exactly when the writer's copy agrees with the file on them |
| ConfigManagers.ProjectWriteCanLose | src/config.py:321-324 | read, another manager's write, own write: the other's key is gone |
| PickBatch.GroupByRepo | eval/pick_batch.py:90-92 | each repository's unseen ids in dataset order |
| PickBatch.PickRoundRobin | eval/pick_batch.py:93-105 | the loop terminates with the first `n` rows of the round-robin order |
| PickBatch.NextBatch | eval/pick_batch.py:75-105 | nothing to pick exactly when all rows are seen, otherwise the batch of the unseen ones |
| PickBatch.UnseenConcat | eval/pick_batch.py:74 | the unseen rows stand in dataset order |
| PickBatch.AscendingIsUnique | eval/pick_batch.py:96 | sorting the repositories has one answer, so each round uses the same order |
| PickBatch.LessAt | eval/pick_batch.py:96 | the order of names is decided at the first difference, or by the end of the shorter one |
| PickBatch.Fair | eval/pick_batch.py:93-105 | per repository the batch is a prefix of dataset order, and a repository with rows left is at most one behind any other |
| PickBatch.FullOrderIsAll | eval/pick_batch.py:93-105 | the whole order holds every row as often as the dataset does |
| PickBatch.FullOrderIsOrdered | eval/pick_batch.py:94-102 | the order is turn by turn, and within a turn by repository name |
| PickBatch.PickedCounts | eval/pick_batch.py:93-105 | `min(n, unseen)` rows, distinct ids from distinct ids, and the batch for `n` is a prefix of the batch for any larger `n` |
| Agents.GetActiveAgentsFromList | src/agent/load_agents_dir.py:74-89 | the loop computes the last-wins list |
| Agents.ActiveIsLastWins | src/agent/load_agents_dir.py:74-89 | one agent per type, each the last definition of its type, in the order of first definitions |
| Agents.ActiveAbsorbs | src/agent/load_agents_dir.py:74-89 | deduplicating early changes nothing: active(active(xs) + ys) = active(xs + ys) |
| Agents.TiersMerge | src/agent/load_agents_dir.py:46-52 | merging tier by tier is merging the whole ordered list |
| Agents.HighestTierWins | src/agent/load_agents_dir.py:46-52 | the definition that wins is the last one of the highest tier that has one |
| Agents.MergeDiscovered | src/agent/load_agents_dir.py:141-152 | the discovered sources are concatenated in ascending priority and deduplicated |
| Agents.SourcePriority | src/agent/load_agents_dir.py:46-52 | managed wins over project, project over user, user over plugin, plugin over built-in |

## Left out

- JsonProofs.LoadsPrint: a float is identified with the digits Python prints for it, and NaN, the infinities and lone surrogates are outside its domain; the parser's limits on recursion and on the length of integers are not modelled.
- TranscriptFiles.TranscriptWriter.Append: opening, permissions and closing of the descriptor are outside; a closed writer is the flag alone.
- AppendProtocol.WholeLinesInLockOrder: the POSIX path without a lock is not covered, since there the chunks of short writes may interleave.
- TokenEstimation.EstimateBlock: blocks are JSON values; custom objects, whose keys go through `default=str`, can share a key with a plain string, so soundness fails there. What `str` makes of a value that is not a string, and the tokenizer, are parameters.
- ResumeAgent.AtMostOneWorker: the launcher's admission, the worker's body and the event are steps that follow the launcher's code; name claims, transcripts and progress reports of a launch are not modelled, and a wait may time out at any moment at which the event is not set.
- ResumeAgent.ResumeReplaysConversation: `message_from_dict` is not applied; the replayed entries are compared as JSON objects.
- ForegroundRace.RunWithBackgroundEscape: the scheduler is the parameter; cancellation of the outer call, and whether the signal ever wins against an always ready iterator, are outside.
- TaskRegistry.RuntimeTaskRegistry.Update: the lock is modelled in `PromotionAccounting`, where reading and writing are separate steps; the variable a mutator sets in its caller is a second function of the entry; a task has no fields beyond those the flips read and one that stands for the rest.
- CostTracker.NoLostUpdates: costs are real numbers, the price table is a parameter, and token fields are integers or absent; conversion of other field values is not modelled.
- Trajectory.StepsFromConversation: ids, texts and names are strings or absent; timestamps, model names, metrics and the final metrics are dropped, and so is the choice of the session file.
- ToolCalls.FilteredIsLargest: stated for lists without calls of an empty id, because the code never counts such a call as answered; ToolCalls.LargestIff gives the exact condition.
- Fork.BuildForkedMessages: uuids, timestamps and the fixed wording of the rules are parameters; a deep copy is the same value.
- Config.DeepMerge: dicts are maps, so insertion order, which decides only how the file is laid out, is not modelled.
- ConfigManagers.ConfigManager.LoadGlobal: it returns the tier as a value, so nested dicts shared between a cache and a caller are not modelled; file access is one atomic step, and the verdict of trust, the defaults and the paths are parameters.
- PickBatch.NextBatch: the random mode, the dataset loader and the predictions file are outside; what has been seen is a parameter.
- Agents.MergeDiscovered: discovery on disk, the cache per directory and the fallback to built-ins when a loader fails are outside.
- Provider calls, the API token counter, container commands, permission modes, effort and model resolution, and the command line are not part of this model.
