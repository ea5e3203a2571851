# Privacy HUD, modelled and proved

Privacy HUD watches what a coding agent sends out. A hook client asks a local daemon about each event;
the daemon scans the text, rules on outbound calls, rewrites sensitive spans and keeps a ledger of what was
disclosed. This project models the parts of it whose correctness is not visible from any one function and
proves what they promise.

| file | what it models |
|---|---|
| `ActionOutcomes.dfy` | the resolver that decides whether one action at one boundary leaves an outcome open: the accumulating loop, the decision cascade, and the set comprehensions both must equal |
| `OutcomeCounts.dfy` | partitioning a session and computing its seven counts |
| `OutcomeLaws.dfy` | what further evidence can and cannot settle, and how counts combine |
| `OutcomeSettlement.dfy` | what does settle a partition, said of bits, scopes and pairs alone, and that the resolver decides exactly this |
| `DaemonStartup.dfy` | any number of processes starting, serving, closing and crashing around one socket path, one startup lock and one writer lease |
| `DaemonLifetime.dfy` | session references, the in-flight count, the drain window and the serve loop |
| `DeepScan.dfy` | the egress deep scan: slot, model lock, worker, deadline and acceptance, for any number of egress and ingress scans |
| `Ruling.dfy` | allow, rewrite or deny, over user rules, the first-write-wins origin map and the defaults |
| `SessionIdentity.dfy` | accounting keys under split locking, failed ledger writes, ends and restarts |
| `GuardTargets.dfy` | the prepare/record/remember index behind guard-target links |
| `SpanRewriting.dfy` | right-to-left rewriting of findings and the left-to-right splice it equals |
| `JsonText.dfy` | rendering and reading JSON text, with escapes and surrogate pairs |
| `JsonRewriting.dfy` | rewriting serialized MCP arguments without changing their shape |
| `ValueGrouping.dfy` | the keyed and the keyless grouping of findings by value |
| `HookClient.dfy` | the hook's chunked frame reader and the hello-then-event exchange |
| `IdentityFraming.dfy` | the length-prefixed framing under the identity MAC |
| `DisclosureBudget.dfy` | charging first disclosures to a session's budget |
| `Common.dfy` | `Option` and `Result` |

Concurrency is modelled as a step system: every atomic action of every process or thread is one step, a run is
any sequence of enabled steps, and safety is proved for every state of every run. Where the program is
imperative, a class carries the same fields and its methods perform the same steps; each method's contract
ties the new state to the function of the step system. Environment failures (a ledger write that fails, a
socket that cannot be removed, a thread that cannot be started, a detector that raises) are parameters.

Assumptions: HMAC is injective, for actions and turns also in its first half; fresh random keys, tokens and row
IDs are distinct; UTF-8 is injective; a ledger call commits completely or changes nothing; and scores are real
numbers.

Four results need a condition that the code does not spell out:

- That an observation without a resolution scope never settles anything holds only while no resolved pair has
  two empty identities (`NoScopeNeverResolves`); `EmptyIdentitiesWouldResolve` gives a partition for which it
  fails otherwise. The ledger's identities are never empty.
- A listening daemon holds the startup lock except when its start was aborted between the bind and the
  statement that records it: then the socket listens until its process ends, and other starts find it live and
  refuse (`AbortLeavesListenerExactly`, `LeftListenersWereInterrupted`, `ProbeFindsOnlyAbortedStarts`).
- A worker checks the clock before it starts inference, and always in time (`BeginsAfterTimelyCheck`); but it
  begins late if and only if the steps taken between its check and its start let at least the time pass that
  the check had left, and `LateStartIsPossible` is such a run. Work begun past the deadline is never used
  (`LateWorkIsNeverAccepted`).
- The client's frame reader and the daemon's agree on a stream under every undelayed chunking if and only if
  the daemon refuses it or nothing follows its first line. Otherwise some chunking makes the client refuse what
  the daemon accepts (`TrailingBytesMatter`, and `OneChunkTooMany` for a concrete answer); the client then
  accepts exactly when some chunk ends with the newline (`ReadFrame`).

## Model

| member | source | states |
|---|---|---|
| `ActionOutcomes.ObservedFacts` | src/privacy_hud/accounting.py:616-629 | the facts one observation's events state are collected without regard to scope |
| `ActionOutcomes.Obligations` | src/privacy_hud/accounting.py:630-658 | the pairs a crossing, denial or rewrite names, and whether it names something that cannot be matched |
| `ActionOutcomes.Receipts` | src/privacy_hud/accounting.py:659-674 | only pair scope receipts pairs, only boundary scope stops a boundary or receipts the zero finding |
| `ActionOutcomes.MeasuresGrow` | src/privacy_hud/accounting.py:612-674 | one turn of the loop takes every accumulator from its comprehension over the observations so far to the comprehension over one more |
| `ActionOutcomes.Accumulate` | src/privacy_hud/accounting.py:588-674 | after the loop all ten sets and seven flags equal their comprehensions over the partition's observations and events |
| `ActionOutcomes.PartitionUnresolved` | src/privacy_hud/accounting.py:588-699 | the cascade answers exactly the declarative definition: a conflict, something unmatchable, or an open crossing, denial or rewrite |
| `OutcomeCounts.UnresolvedOf` | src/privacy_hud/accounting.py:713-729 | an action is unresolved exactly when one of its boundary partitions is |
| `OutcomeCounts.ResolveOutcomes` | src/privacy_hud/accounting.py:702-747 | all seven counts are the sizes of sets defined by comprehension over the sets of observations and events, and five of them are stated directly by their evidence bit |
| `OutcomeLaws.DeliveryOrderIsIrrelevant` | src/privacy_hud/accounting.py:702-747 | no reordering of observations or events and no repeated delivery changes a count |
| `OutcomeLaws.ConflictIsPermanent` | src/privacy_hud/accounting.py:676-680 | contradictory facts are never resolved by further observations or events |
| `OutcomeLaws.BoundaryStopIsTotal` | src/privacy_hud/accounting.py:670-699 | with a boundary stop, and event evidence within its record's, a partition is unresolved if and only if an execution or crossing was recorded |
| `OutcomeLaws.PendingDenialNamesSomething` | src/privacy_hud/accounting.py:639-648 | a pending denial that is not unidentified names a real pair |
| `OutcomeLaws.NoScopeNeverResolves` | src/privacy_hud/accounting.py:612-699 | an observation with scope none, with any events, never turns an unresolved partition into a resolved one |
| `OutcomeLaws.EmptyIdentitiesWouldResolve` | src/privacy_hud/accounting.py:573-585 | a concrete partition showing that the law needs resolved pairs to differ from the zero finding |
| `OutcomeLaws.NamelessEventNeverResolves` | src/privacy_hud/accounting.py:579-585 | attaching an event with an unresolved subject or recipient to any observation never resolves a partition |
| `OutcomeLaws.ForeignEventsDoNotCount` | src/privacy_hud/accounting.py:713-729 | events of other observations do not change a partition's answer |
| `OutcomeLaws.OutcomesAdd` | src/privacy_hud/accounting.py:713-747 | for inputs that share no action and no observation every count of the whole is the sum of the counts of the parts |
| `OutcomeLaws.StoppedReadsAreSettledDenials` | src/privacy_hud/accounting.py:730-747 | stopped reads are at most the enforced denials, never unresolved and never executed |
| `OutcomeSettlement.SettledExactly` | src/privacy_hud/accounting.py:588-699 | with resolved identities not empty, the resolver leaves a partition unresolved if and only if it is not settled, where being settled is defined by evidence bits, scopes and pairs only |
| `OutcomeSettlement.PairEvidenceSettles` | src/privacy_hud/accounting.py:659-689 | the ordinary disclosure: nothing denied, rewritten, lost or contradictory, and each pair of each potential crossing has a pair-scoped event carrying a confirmed crossing, or an enforced denial, or a rejection, or an enforced rewrite; then the partition is resolved |
| `OutcomeSettlement.StoppedPairsSettleDenial` | src/privacy_hud/accounting.py:639-699 | an issued denial is resolved once every pair it or a potential crossing names was stopped in pair scope and nothing ran |
| `OutcomeSettlement.ExecutedDenialNeverSettles` | src/privacy_hud/accounting.py:689-695 | an issued denial with a recorded execution or crossing is unresolved whatever else was observed |
| `OutcomeSettlement.RemovedPairsSettleRewrite` | src/privacy_hud/accounting.py:649-699 | an issued rewrite is resolved once every pair it names was removed in pair scope |
| `OutcomeSettlement.UnremovedRewriteStaysOpen` | src/privacy_hud/accounting.py:696-699 | without a boundary stop a named pair that nothing removed leaves its rewrite unresolved |
| `OutcomeSettlement.UnsettledPairStaysOpen` | src/privacy_hud/accounting.py:682-689 | without a boundary stop a potential crossing with a pair that nothing settled stays unresolved |
| `OutcomeSettlement.BoundaryStopSettles` | src/privacy_hud/accounting.py:670-681 | with a boundary stop and no contradictory pairs a partition is unresolved if and only if an execution or a crossing was observed |
| `OutcomeSettlement.UnresolvedActionsAreUnsettled` | src/privacy_hud/accounting.py:713-729 | the count of unresolved actions is the number of actions with a partition that is not settled |
| `OutcomeSettlement.StoppedReadsExactly` | src/privacy_hud/accounting.py:730-747 | the stopped reads are exactly the actions that read, were stopped by an enforced denial, never ran and are settled |
| `DaemonStartup.NextKeepsInv` | src/privacy_hud/daemon.py:997-1058 | every step of every process keeps: lock, lease, socket file and each process's own fields tell one story |
| `DaemonStartup.AtMostOneListens` | src/privacy_hud/daemon.py:1154-1186 | in every state of every run at most one process listens and the file at the path is its own; it holds the startup lock unless its start was aborted and gave it back, and a listening daemon recorded as bound holds the lock and, when it built its state, the lease |
| `DaemonStartup.OthersLeaveAListenerAlone` | src/privacy_hud/daemon.py:1249-1266 | no step of another process removes a listener's socket file, stops it or takes a lock it holds |
| `DaemonStartup.UnlinksAreSafe` | src/privacy_hud/daemon.py:1079-1104 | closing and aborting unlink only the file this daemon bound, and a stale file is unlinked only while nobody listens |
| `DaemonStartup.AbortLeavesListenerExactly` | src/privacy_hud/daemon.py:1043-1058 | aborting a start leaves its socket listening if and only if it strikes between the bind and the statement that records it |
| `DaemonStartup.LeftListenersWereInterrupted` | src/privacy_hud/daemon.py:1079-1104 | every socket that listens although its daemon gave it up was aborted in that window |
| `DaemonStartup.ProbeFindsOnlyAbortedStarts` | src/privacy_hud/daemon.py:1207-1247 | a probe made under the lock never finds a running daemon, only a socket that an aborted start left listening |
| `DaemonStartup.Host.TakeOwnership` | src/privacy_hud/daemon.py:997-1023 | lock first, then lease; refused exactly when one is held, leaving both as they were |
| `DaemonStartup.Host.ProbeSocketPath` | src/privacy_hud/daemon.py:1207-1247 | absent, stale, live and unknown, each exactly when the path is so |
| `DaemonStartup.Host.ClaimSocketPath` | src/privacy_hud/daemon.py:1249-1266 | a listener that answers the probe is refused; an abandoned socket file that can be probed is claimed exactly when it can be removed, and then the path is free; nothing else at the path is touched |
| `DaemonStartup.Host.BindAndChmod` | src/privacy_hud/daemon.py:1043-1058 | serving exactly when the path is free and none of bind, record and chmod fails; otherwise unwound, with what is left at the path, and left listening exactly by an interrupt before the record |
| `DaemonStartup.Host.Start` | src/privacy_hud/daemon.py:952-1077 | a start with lock and lease to be had heals an abandoned socket file: with no fault it serves at the path, and with only the probe or the removal failing it is refused and the path stays; under every set of faults, when it serves, when it reports another daemon, what it leaves at the path, and when it leaves a listener; a failed start returns lock and lease |
| `DaemonStartup.CrashLeavesStaleFile` | src/privacy_hud/daemon.py:1249-1266 | a daemon that dies while it serves leaves its lock and lease free and only its socket file, on which nobody listens: exactly what a start heals |
| `DaemonStartup.CrashIsPossible` | src/privacy_hud/daemon.py:1249-1266 | a concrete run to such a state |
| `DaemonStartup.Host.Close` | src/privacy_hud/daemon.py:1433-1471 | closing removes the daemon's own file and returns the lease and then the lock |
| `DaemonStartup.Host.GiveBack` | src/privacy_hud/daemon.py:1079-1104 | lease and lock are given back and nothing else changes |
| `DaemonLifetime.SessionRegistry.Note` | src/privacy_hud/dispatch.py:626-658 | a nonempty session's reference is set to the time of its last event |
| `DaemonLifetime.SessionRegistry.Release` | src/privacy_hud/dispatch.py:661-672 | a session's reference is dropped |
| `DaemonLifetime.SessionRegistry.Count` | src/privacy_hud/dispatch.py:675-706 | exactly the references older than the limit are swept and the rest are counted |
| `DaemonLifetime.SinceIsStretchStart` | src/privacy_hud/daemon.py:1363-1399 | the armed drain start is the first pass of the current unbroken due-and-busy stretch |
| `DaemonLifetime.ExitsExactlyWhenDrained` | src/privacy_hud/daemon.py:1349-1399 | the loop leaves if and only if the exit is due and either nothing is in flight or a contiguous due-and-busy stretch is as old as the drain limit |
| `DaemonLifetime.AlwaysLeaves` | src/privacy_hud/daemon.py:1349-1399 | readings that show no accept lead to an exit within idle, drain and two polls, whatever the session map says and however many counts leaked |
| `DaemonLifetime.UnattendedLeaves` | src/privacy_hud/daemon.py:1349-1426 | the checks the serve loop makes when no connection is accepted lead to such an exit |
| `DaemonLifetime.LeavesDrained` | src/privacy_hud/daemon.py:1269-1308 | the loop leaves either with every accepted request flushed or after a contiguous due-and-busy stretch as long as the drain limit |
| `DaemonLifetime.NeededNeverLeaves` | src/privacy_hud/daemon.py:1349-1426 | a daemon that some session or a recent accept needs at every check does not leave |
| `DaemonLifetime.DesertedLeaves` | src/privacy_hud/daemon.py:1349-1426 | with no accept, no session heard of recently and nothing in flight the loop leaves within the linger limit and one poll |
| `DaemonLifetime.ServeLoop.VerifyRequest` | src/privacy_hud/daemon.py:1269-1288 | a request is counted before its handler can run |
| `DaemonLifetime.ServeLoop.RequestFinished` | src/privacy_hud/daemon.py:1290-1296 | the count drops by one for each handler that made its flush, and never below the number of requests that have not |
| `DaemonLifetime.ServeLoop.ExitDue` | src/privacy_hud/daemon.py:1349-1361 | the exit is due after the idle limit, or after the linger limit when every session was last heard of before the stale limit; only then are stale references swept |
| `DaemonLifetime.ServeLoop.ReadyToExit` | src/privacy_hud/daemon.py:1363-1399 | the verdict and the drain window are the exit policy applied to the loop's own last accept, fresh references and unfinished requests |
| `DaemonLifetime.ServeLoop.ServeForever` | src/privacy_hud/daemon.py:1401-1426 | over any accepts, session events and handler progress the loop leaves at exactly the first check whose readings say so; it never leaves while every check is within the idle limit of the last accept and within the linger limit or some session was heard of recently enough; deserted, it leaves within linger and one poll; and when nobody connects it leaves within idle, drain and two polls of its start |
| `DeepScan.RunExpensive` | src/privacy_hud/engine.py:324-354 | the findings are exactly those of the detectors available before and after a scan that did not raise; none of these is a gap, and a raising one an error |
| `DeepScan.NextKeepsInv` | src/privacy_hud/engine.py:371-414 | every step of every caller, worker and ingress scan keeps slot, model lock and tasks consistent |
| `DeepScan.SlotAndModelAreExclusive` | src/privacy_hud/engine.py:248-258 | the slot is taken exactly while one admitted scan answers for it, at most one thread infers, and it last read the clock before its deadline |
| `DeepScan.ClockShowsElapsed` | src/privacy_hud/engine.py:376-399 | between any two states of a run the clock advances by exactly the time its steps let pass |
| `DeepScan.BeginsAfterTimelyCheck` | src/privacy_hud/engine.py:390-399 | whenever inference begins, the worker holds the model lock and an earlier step of the run is its check, made before the deadline, after which it did nothing else; it begins late if and only if the steps since then let at least the time pass that the check had left |
| `DeepScan.LateStartIsPossible` | src/privacy_hud/engine.py:396-399 | a run in which a worker held up after its reading starts inference past its deadline |
| `DeepScan.LateWorkIsNeverAccepted` | src/privacy_hud/engine.py:390-402 | whatever a caller accepts was started and finished by its deadline |
| `DeepScan.JudgementIsExact` | src/privacy_hud/engine.py:929-940 | a woken caller accepts if and only if the task has no error, no gap and finished by the deadline, raises exactly its error, and otherwise reports its gap or a timeout |
| `DeepScan.FindingsChangeOnlyByAcceptance` | src/privacy_hud/engine.py:927-940 | a caller's findings change only by accepting a complete, error-free task without a gap that finished by the deadline |
| `DeepScan.ReturnedIsFinal` | src/privacy_hud/engine.py:901-906 | nothing a worker records later reaches a caller that returned |
| `DeepScan.OwnStepsAreBounded` | src/privacy_hud/engine.py:371-414 | in any interleaving a started worker takes at most ten steps of its own, and at its end it no longer answers for the slot |
| `DeepScan.WorkerFreesSlot` | src/privacy_hud/engine.py:384-414 | from every reachable state, once the deadline has passed, the worker's own steps free the slot |
| `DeepScan.Scanner.EnterAndAcquire` | src/privacy_hud/engine.py:384-389 | the worker gets the model if and only if it enters before its deadline and the model is free when it reaches the lock, and then at once; otherwise it gives up, at its deadline or later |
| `DeepScan.Scanner.RunUnderModel` | src/privacy_hud/engine.py:390-411 | the detectors are run if and only if there is time left when the worker looks at the clock under the lock; what the task holds when the lock is given back, however they ended |
| `DeepScan.Scanner.DeepScanWorker` | src/privacy_hud/engine.py:371-414 | the detectors are run if and only if the model is free and time is left when the worker gets to them; whatever runs in between, it ends with its task signalled and the slot free, and the task holds a stamped result exactly when the detectors were run to their end |
| `DeepScan.Scanner.SignalAndLeave` | src/privacy_hud/engine.py:412-414 | the task is signalled unchanged and the slot is given back |
| `DeepScan.WorksAlone` | src/privacy_hud/engine.py:371-414 | a worker that alone takes its steps, with a free model and time left, completes its task with the detectors' findings, in time and without a gap |
| `DeepScan.Scanner.WaitAndJudge` | src/privacy_hud/engine.py:927-940 | the wait reports completion if and only if there is one and it is not too late, and the acceptance rule is applied both ways |
| `DeepScan.Scanner.DeepScanOnADeadline` | src/privacy_hud/engine.py:875-940 | busy, failed start, a wait without completion, and after a wait with completion exactly the judged verdict and findings; with slot and model free and time left, a caller whose worker alone runs while it waits accepts and ends with the cheap findings followed by the detectors' |
| `Ruling.Engine.RememberOrigins` | src/privacy_hud/engine.py:740-768 | a call that has run gives exactly its own values an origin, unless they have one; any other call changes nothing |
| `Ruling.Engine.BlockedOrigin` | src/privacy_hud/engine.py:770-785 | the origin of the first finding from a blocked source, and none exactly when there is no such finding |
| `Ruling.Engine.Observe` | src/privacy_hud/engine.py:1139-1277 | the ruling of every direction: a network rule or a blocked source denies; without a credential a masked type is rewritten and anything else goes out; a credential goes out only on an allow-once token and is rewritten only on a minimize token or a masking default; and exactly when the read guard denies or gives its one notice, which source blocked the call and when a token is spent |
| `Ruling.BlockedCallsAreDenied` | src/privacy_hud/engine.py:1243-1256 | a network rule or a value from a blocked path or command denies an outbound call |
| `Ruling.MaskRulesDecide` | src/privacy_hud/engine.py:1243-1262 | an outbound call without a credential is rewritten if and only if a mask rule names a type it carries, and allowed otherwise |
| `Ruling.TokensDecide` | src/privacy_hud/engine.py:1256-1277 | an outbound credential: allowed on an allow-once token, rewritten on a minimize token or a masking default, denied otherwise, and no answer without a default |
| `Ruling.MoreRulesNeverWeaken` | src/privacy_hud/engine.py:1243-1277 | more mask, path or command rules, and more remembered origins, never weaken an outbound answer |
| `Ruling.LaterIsNeverWeaker` | src/privacy_hud/engine.py:740-785 | within one engine's life, without tokens, the same call never gets a weaker answer later |
| `Ruling.FirstOriginWins` | src/privacy_hud/engine.py:740-768 | the first origin recorded for a value stays its origin |
| `SessionIdentity.NextKeepsInv` | src/privacy_hud/dispatch.py:822-1108 | every critical section keeps keys, engines, rows and recorded hashes consistent |
| `SessionIdentity.OneKeyPerSession` | src/privacy_hud/dispatch.py:908-943 | over every run all identity hashes of a session come from one key, and no two sessions share one |
| `SessionIdentity.HeldKeyMeansOpenRow` | src/privacy_hud/dispatch.py:1101-1108 | a held key implies an open, available version-2 row and is the key of all its hashes |
| `SessionIdentity.UnavailableIsAbsorbing` | src/privacy_hud/dispatch.py:822-857 | a row never becomes available again, is never reopened and never changes its version |
| `SessionIdentity.NewHashesNeedAHeldKey` | src/privacy_hud/engine.py:1459-1472 | a new hash comes from the activation that creates the row or from a delivery to an open, available session whose key is held |
| `SessionIdentity.NoHashAfterEndOrLoss` | src/privacy_hud/engine.py:1459-1472 | nothing is hashed for an ended or unavailable session |
| `SessionIdentity.LostKeyIsLostForever` | src/privacy_hud/dispatch.py:860-905 | once a known session's key is gone no later event brings a key or a hash back |
| `SessionIdentity.CommittedEndIsFinal` | src/privacy_hud/dispatch.py:1005-1098 | after an end that committed the row stays ended, and no start, hook, delivery or restart gives the session an engine or a key again |
| `SessionIdentity.RecordedUnderTheHeldKey` | src/privacy_hud/dispatch.py:1339-1364 | a recorded delivery or end of a session whose key is held adds the identity under that key, and nothing is added when no key is held |
| `SessionIdentity.Daemon.DiscardIdentity` | src/privacy_hud/dispatch.py:860-876 | the session's engine and key are dropped |
| `SessionIdentity.Daemon.AttachKeyless` | src/privacy_hud/dispatch.py:884-905 | a session whose key is lost is marked unavailable before it gets an engine without a key, and nothing else changes |
| `SessionIdentity.Daemon.ActivateSession` | src/privacy_hud/dispatch.py:908-943 | the row and the first hash commit together or not at all; the key is installed only then, and one that cannot be is discarded and its session marked |
| `SessionIdentity.Daemon.HandleSessionStart` | src/privacy_hud/dispatch.py:946-1002 | a new session gets an open available version-2 row, a key, an engine and its first hash; an ended or registered one is left alone; a legacy row and a lost key get an engine without a key |
| `SessionIdentity.Daemon.GetOrStartEngine` | src/privacy_hud/dispatch.py:446-501 | an ended session gets a temporary engine and nothing is registered; otherwise the registered engine, or a new one without a key, for a version-2 session after it is marked and for an unknown one with a legacy row |
| `SessionIdentity.Daemon.ObserveDelivery` | src/privacy_hud/dispatch.py:1339-1364 | after the unlocked scan the delivery is recorded under the key held now, which adds exactly that identity; without a held key, or when recording fails, nothing is hashed |
| `SessionIdentity.Daemon.HandleSessionEnd` | src/privacy_hud/dispatch.py:1005-1098 | the end commits, which ends the row and hashes its last observation under the held key, or fails and changes no row; the identity is destroyed either way |
| `SessionIdentity.Daemon.InvalidateMissingKeys` | src/privacy_hud/dispatch.py:822-857 | exactly the open, available version-2 sessions without a held key become unavailable |
| `SessionIdentity.Daemon.Boot` | src/privacy_hud/dispatch.py:229-275 | a daemon runs only if the invalidation committed, and then every open version-2 session is unavailable and every other row as before |
| `GuardTargets.LinksFormStars` | src/privacy_hud/guard_targets.py:19-52 | every stored link names an earlier committed event of the same representation, window and target that has no link itself |
| `GuardTargets.SharedTargetMeansSameText` | src/privacy_hud/engine.py:1555-1590 | events that share a target ID were recorded for one representation in one window |
| `GuardTargets.FirstIsUnlinked` | src/privacy_hud/guard_targets.py:25-49 | the first committed denial of a representation in a window gets a fresh target and no link |
| `GuardTargets.RepeatsAreLinked` | src/privacy_hud/guard_targets.py:25-49 | every later committed denial of it in that window has the same target and links to the first |
| `GuardTargets.NextKeepsInv` | src/privacy_hud/guard_targets.py:55-115 | failures, duplicates, outer transactions, rollbacks and clears keep the stars |
| `GuardTargets.GuardTargetIndex.Prepare` | src/privacy_hud/guard_targets.py:25-43 | a remembered representation proposes its target with a link, any other a fresh one |
| `GuardTargets.GuardTargetIndex.Remember` | src/privacy_hud/guard_targets.py:45-49 | the first committed event of a representation is kept |
| `GuardTargets.Recorder.Deliver` | src/privacy_hud/engine.py:1555-1590 | the index learns only what was committed outside any open transaction |
| `GuardTargets.Recorder.ClearIdentity` | src/privacy_hud/engine.py:675-688 | a new window forgets every representation |
| `SpanRewriting.SortSorts` | src/privacy_hud/minimize.py:67 | the order of application is a permutation by descending start |
| `SpanRewriting.MinimizeText` | src/privacy_hud/minimize.py:56-77 | the loop gives the rewriting in that order, or the refusal of a span that no longer holds its value; for disjoint non-empty spans that hold their values the result contains, for each, the pseudonym of its type and value |
| `SpanRewriting.SpansBecomePseudonyms` | src/privacy_hud/mask.py:42-48 | every span becomes an address for an e-mail, and otherwise its type with its value's token |
| `SpanRewriting.OneSpanIsReplaced` | src/privacy_hud/minimize.py:68-77 | a single span becomes that pseudonym and the text around it stays |
| `SpanRewriting.NegativeIndicesCountFromTheEnd` | src/privacy_hud/minimize.py:68-77 | a negative span index counts from the end of the text |
| `SpanRewriting.MinimizeIsSplice` | src/privacy_hud/minimize.py:56-77 | for disjoint non-empty spans that hold their values the rewriting never fails and is the left-to-right concatenation of gaps and pseudonyms |
| `SpanRewriting.FindingOrderIsIrrelevant` | src/privacy_hud/minimize.py:59-64 | the order of the findings does not change the result |
| `SpanRewriting.MinimizedLength` | src/privacy_hud/minimize.py:75-77 | the result is as long as the text plus the sum of the replacement differences |
| `SpanRewriting.RepeatedSpanIsRefused` | src/privacy_hud/minimize.py:68-74 | a span reported twice is refused when its pseudonym starts differently from its value |
| `SpanRewriting.MatchingExactly` | src/privacy_hud/minimize.py:80-91 | the filter keeps exactly the findings whose span holds their value |
| `SpanRewriting.MatchingIsRewritable` | src/privacy_hud/minimize.py:133-142 | after the filter disjoint non-empty spans are never refused |
| `JsonText.StringBack` | src/privacy_hud/dispatch.py:572-574 | every string survives escaping and reading, including control characters and surrogate pairs |
| `JsonText.LoadsDumps` | src/privacy_hud/minimize.py:170-172 | reading back a rendered document gives the document |
| `JsonText.EscapesAreStandard` | src/privacy_hud/dispatch.py:572-574 | the escapes written are those of section 7 of RFC 8259 |
| `JsonText.RenderingIsAscii` | src/privacy_hud/dispatch.py:572-574 | a rendered string is printable ASCII whatever it holds |
| `JsonText.MembersAreSeparated` | src/privacy_hud/dispatch.py:572-574 | members are separated by a comma and a space, keys and values by a colon and a space |
| `JsonRewriting.CutSplits` | src/privacy_hud/minimize.py:164-172 | a cut that splits no escape splits the rendered string where it splits the string |
| `JsonRewriting.EditSplices` | src/privacy_hud/minimize.py:164-172 | replacing characters of one string value splices the rendered document there |
| `JsonRewriting.EditIsLocal` | src/privacy_hud/minimize.py:164-172 | such an edit keeps structure, keys, atoms and every other string |
| `JsonRewriting.LeftSurvives` | src/privacy_hud/minimize.py:59-61 | a span to the left of an edit still lies in the same string value |
| `JsonRewriting.ReplacementIsPlain` | src/privacy_hud/mask.py:42-48 | pseudonyms are rendered as themselves |
| `JsonRewriting.McpKeepsDocument` | src/privacy_hud/minimize.py:164-172 | when each span lies in a string value and cuts no escape, the rewritten text reads back as a document with the same structure, keys and atoms, differing only in the strings the findings lie in, and its text is the splice |
| `JsonRewriting.LookupExactly` | src/privacy_hud/minimize.py:147-149 | the command is the string under the first member with that key |
| `JsonRewriting.MinimizeToolInput` | src/privacy_hud/minimize.py:94-172 | the branch taken for a bare string, for a document whose command member is a string, for one without, and for MCP arguments; a string exactly for command tools, a document with one text member for a bare string elsewhere, and shape kept for MCP arguments |
| `ValueGrouping.TopType` | src/privacy_hud/accounting.py:402 | the most severe type, ties by ascending name, whatever order a set is iterated in |
| `ValueGrouping.PrecedesExactly` | src/privacy_hud/accounting.py:402 | names are ordered by their first differing character, a prefix first |
| `ValueGrouping.EntryIsTop` | src/privacy_hud/accounting.py:400-409 | an entry's type is a type of the value that none of its types outranks in severity, or by earlier name at the same severity; its count is the number of distinct spans and its exemplar that of type and value |
| `ValueGrouping.ValuesInOrder` | src/privacy_hud/accounting.py:376-380 | a value listed earlier was found earlier |
| `ValueGrouping.GatherKeyed` | src/privacy_hud/accounting.py:385-399 | one entry per value with all its types and spans, or a refusal exactly when some finding is unsound |
| `ValueGrouping.CoalesceValueFindings` | src/privacy_hud/accounting.py:369-409 | one entry per value in first-occurrence order with its number of distinct spans, under the value's identity and a type than which no other type of the value is more severe; refused exactly on an unknown type or a span that does not have its value's length |
| `ValueGrouping.UnresolvedValueFindings` | src/privacy_hud/engine.py:1690-1711 | the same entries without a subject; only an unknown type is refused |
| `ValueGrouping.SummariesAgree` | src/privacy_hud/engine.py:1690-1694 | the keyed and the keyless grouping report the same types, counts and exemplars in the same order |
| `ValueGrouping.DetectorOrderIsIrrelevant` | src/privacy_hud/accounting.py:376-380 | what is reported for a value depends on the set of findings only |
| `ValueGrouping.OccurrencesAddUp` | src/privacy_hud/accounting.py:378-380 | the occurrences add up to the number of distinct pairs of value and span |
| `HookClient.DaemonAcceptsExactly` | src/privacy_hud/daemon.py:321-334 | the daemon accepts exactly the streams whose first line is terminated and within the limit |
| `HookClient.Connection.ReadFrame` | hooks/handler.py:446-465 | for every chunking the reader accepts a line if and only if the line is terminated, within the limit, and the network's chunks up to then arrive and one of them ends with its newline; it times out only past the deadline, and undelayed it refuses everything else |
| `HookClient.Connection.Greet` | hooks/handler.py:529-543 | undelayed, a hello answer is accepted if and only if it is a matching hello; one for another build, epoch or protocol, or not ready, is never accepted |
| `HookClient.HelloExactly` | hooks/handler.py:529-543 | the nine fields of a matching hello, with any release and one of three schema versions |
| `HookClient.WelcomedExactly` | hooks/handler.py:446-543 | a greeting is welcome if and only if its first line is terminated, has at most 16384 bytes and decodes to the one hello of this build and epoch |
| `HookClient.AnswerExactly` | hooks/handler.py:446-571 | an answer is read if and only if its line is terminated and has at most 8388608 bytes |
| `HookClient.Connection.Deliver` | hooks/handler.py:555-571 | the event is begun unless the deadline has passed, and undelayed its valid reply is relayed |
| `HookClient.ReadersAgree` | hooks/handler.py:446-465 | on a stream of at most one line any decision the client reaches is the daemon's |
| `HookClient.TrailingBytesMatter` | hooks/handler.py:462-464 | for every stream some undelayed chunking makes the client decide as the daemon does, and some makes it decide otherwise if and only if the daemon accepts the line and a byte follows it |
| `HookClient.OneChunkTooMany` | hooks/handler.py:462-464 | an empty object, its newline and one more byte in one chunk: accepted by the daemon's reader, refused by the client's |
| `HookClient.Connection.Exchange` | hooks/handler.py:520-571 | the event is begun at most once and only after a matching hello; undelayed, with one line before and one after the event, the outcome is exactly refused, unverified or relayed as those lines demand |
| `HookClient.Checked` | hooks/handler.py:566-571 | the output of a reply is relayed exactly when the reply is a valid event reply |
| `IdentityFraming.DigitsBack` | src/privacy_hud/identity.py:52 | the eight-byte prefix determines the length |
| `IdentityFraming.HighestFirst` | src/privacy_hud/identity.py:52 | the first byte of a length counts for the most |
| `IdentityFraming.UnframeBack` | src/privacy_hud/identity.py:45-58 | a message can be read back into its fields |
| `IdentityFraming.FramesDetermine` | src/privacy_hud/identity.py:45-59 | no two field sequences of any lengths share a message |
| `IdentityFraming.FramesExist` | src/privacy_hud/identity.py:45-52 | a message exists exactly when every field is non-empty and fits the prefix |
| `IdentityFraming.IdentityDetermines` | src/privacy_hud/identity.py:55-120 | equal identities mean the same key and the same value, file, recipient, action or turn; for actions and turns, given that digests differ in their first half |
| `IdentityFraming.IdentityExists` | src/privacy_hud/identity.py:45-59 | an identity exists exactly for a key of 32 bytes and texts that are not empty and shorter than two to the power of 64 |
| `IdentityFraming.DomainsAre` | src/privacy_hud/identity.py:22-26 | the domain of each kind of thing |
| `IdentityFraming.MessageOfOne` | src/privacy_hud/identity.py:45-59 | the message of a thing with one text is its domain and the text, each after its length in eight bytes |
| `DisclosureBudget.ChargesTelescope` | src/privacy_hud/budget.py:57-93 | charging one step at a time, in any interleaving of groups, totals the score of every group at its final count |
| `DisclosureBudget.InterleavingIsIrrelevant` | src/privacy_hud/budget.py:83-93 | histories with the same number of disclosures in every group cost the same |
| `DisclosureBudget.OneGroupCosts` | src/privacy_hud/budget.py:57-93 | disclosures of one data type to one recipient cost the weight times one plus the logarithm of their number |
| `DisclosureBudget.BatchPays` | src/privacy_hud/ledger.py:1197-1236 | a pair is paid after a batch exactly when it was before or an exposed, confirmed event at the boundary of its destination names it |
| `DisclosureBudget.NothingChargeable` | src/privacy_hud/ledger.py:1213-1236 | a batch without an exposed and confirmed crossing of a real boundary between known ends charges nothing |
| `DisclosureBudget.BatchOnlyAppends` | src/privacy_hud/ledger.py:1215-1219 | a batch only adds rows, and a subject is charged once for a recipient |
| `DisclosureBudget.ChargeBatch` | src/privacy_hud/ledger.py:1197-1242 | the loop charges each first disclosure its group's next step and totals them |
| `DisclosureBudget.ReceiptIsStable` | src/privacy_hud/ledger.py:1254-1272 | what a delivery was charged never changes later |
| `DisclosureBudget.Account.RecordObservation` | src/privacy_hud/ledger.py:1134-1252 | a repeated delivery returns its first receipt and writes nothing, a resolved event on a closed session is refused without change, and the score always equals what the rows were charged |

## Left out

- Daemon startup: a process that ignores the startup lock, and a foreign server at the path, are not steps of the model; its own documentation calls that case best effort.
- DaemonLifetime.ServeLoop.RequestFinished: a second call for one request, which the clamp at zero guards against, is not modelled, since each handler finishes once.
- Daemon startup: interrupts between other adjacent statements of the unwinding.
- Daemon lifetime: each check reads the clock once, where the code reads it up to three times; a request to stop is running out of passes.
- Daemon lifetime: the heartbeat and HUD publishing in the serve loop.
- DeepScan: a wait that reports no completion may happen at any time, not only after the remaining time.
- Oversize and encrypted payloads: decided before admission, they never reach the handoff.
- Ruling: choosing the destination, messages, receipts and the read notice's text; the token's lookup is a parameter.
- SessionIdentity: salts, start times, prompt holds and the ledger's schema generations; each ledger call is one atomic step. `start_accounted_session` finding that the row appeared meanwhile does not occur, since the daemon is the only writer while it holds the lease.
- GuardTargets: the digest the index uses stands for the representation itself, and the write receipt's expiry and summary text are not modelled.
- SpanRewriting: overlapping spans have no general law; whether they are refused depends on the pseudonyms, and `RepeatedSpanIsRefused` shows one family.
- JsonText: numbers are kept as tokens over the characters of JSON numbers and literals, without their grammar; lone surrogates are not characters here; objects are lists of members with distinct keys.
- JsonRewriting.MinimizeToolInput: the key-sorted rendering used when a command is missing is a parameter.
- HookClient: UTF-8 decoding and JSON parsing of a frame are a parameter; the deadline and the network's choices are a list of what each call does before the deadline.
- IdentityFraming: lexical normalization of file paths and the rejection of unevaluated paths and control characters.
- DisclosureBudget: floating-point rounding and the storable limit, the shape checks on a batch, and the legacy accounting.
- Detectors, shell parsing, the MCP server, diagnostics, packaging and display: wide but without the interactions modelled here.
