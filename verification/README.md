# A verified model of ROSPlus

ROSPlus is a developer workbench for ROS 2. It rewrites ROS 1 Python sources, supervises node
processes behind a simulated E-Stop, and runs native nodes under time budgets. This project
models the parts of it where mistakes are subtle and proves what they promise, in Dafny 4.11.
`dafny verify dfyconfig.toml` checks everything.

## What is modelled

### The source-rewriting pass (`pkg/migration/migration.go`, up to the splice)

`Lexer` is the byte lexer, `CallFinder` the balanced-call finder, `Imports` the import-line
expression, `Replacements` the inserted texts, `Transformer` the collection of edits and
warnings, `Edits` the right-to-left splice. The loops are methods; each is proved equal to a
declarative function. Bytes are characters below 256; whitespace is that of `unicode.IsSpace`
on a byte (so 0x85 and 0xA0 count), and the blank-argument test is `strings.TrimSpace` on UTF-8.

The specification is independent of the loops. `Grammar` says what a text is made of: pieces that
are blanks, comments, literals, names and single marks, each fixed by a local condition. `Relexing`
says when lexing commutes with a rewrite. `Quoting` is the literal branch from the writer's side: any
text can be quoted and is lexed back as one literal. `ByteTexts` states the character classes, the white
space and the import expression by what they stand for, `Conversions` what stands in the output for each
rospy function, and `Reports` which warnings come with it. `MigrationTheorems` puts it together:

* the output lexes to the source's tokens with each edited group replaced by the tokens of its
  replacement **if and only if** no import line begins inside a string literal;
* under that condition the pass reports an unconverted reference exactly when its output still has
  a `rospy` name, and without such a report the output has no `rospy` call;
* edits made from calls never collide, nested calls included, so the overlap error is raised exactly
  when an import line meets an edited call; with clean imports, exactly when the `rospy` of an import
  line is the head of an edited call on the next line (`ImportMeetsCall`).

Where the code falls short of its stated intent ("preserving application statements"): the import
expression works on lines, not tokens. A literal that contains an import line is changed, and no
warning is about it: there is none at all unless the unsupported-import expression matches the source
too (`LiteralAlteredSilently`, `QuotedImportAltered`). An import line in a quoted text can even take the
closing quotes with it: `QuotedCode` has a source whose text becomes a live `rospy.spin()` call in the
output, without a warning, so the statements on remaining names need clean imports.

### The supervisor and the E-Stop (`pkg/server/process.go`, `safety.go`, `server.go`)

`Supervision` is a state machine with one step per lock section. `run` is split into its checks and
its start, since the latch is set under another lock and can fall in between; a restart is split by
its unlocked sleep. `SupervisionInvariant` holds what every step keeps, `Generations` the whole-run
facts about processes, `EStop` the finality of the E-Stop. `RestartPolicy` says in the nodes' own fields
which exit is followed by a restart, whom stop and DELETE mark, when run is refused, and which heartbeat
counts. `Server` is the same supervisor as a class with `Node` objects updated in place; each method is
proved to take exactly one step of the machine.

The latch alone is not enough. A run past its check does not look again, and a restart checks the
stopping and closing flags but never the latch, so a node that is running when the latch is set can
come back. `LateStarts` says over all continuations when a process can still start after the latch
(`LateStartIff`), with a run that shows each cause (`LatchAloneIsNotEnough`, `RunningNodeComesBack`).
The sweep closes the gap (`TripIsFinal`).

### Safety loop, watchdog, heartbeat

`SafetyLoop` has the snapshot over all nodes (with the zero time as "no minimum yet"), the health bit
and one tick of the loop; `Packet` the 16-byte packet; `Watchdog` the Rust loop with every clock
reading explicit, `WatchdogRuns` its whole runs and `WatchdogNumbers` one iteration of any run in plain
numbers; `SafetyProtocol` puts supervisor, loop and watchdog together with time. `Stalls` bounds how long
a node can stall unnoticed, `Unwatched` says which nodes the loop covers and when there is no bound;
`TickCycles` builds the runs they exhibit.

`Heartbeat` is the runtime's beat and wait, with the spacing of the packets it writes. `Tracking` shows
that the supervisor's progress time follows the packets, and the launch, in every run. `NoFalseTrip`
puts the two together into a bound under which a beating runtime is never reported unhealthy; a node
that has just been launched beats too. `FalseTrip` shows the bound exact with runs (built in
`SteadyTalker`) in which a runtime keeps beating and yet is reported unhealthy.

Findings, each with its exact condition:

* The minimum loop forgets a zero progress time unless the node that has it is visited last
  (`OldestIff`). It never meets one when the safety monitor is started before the first node, as
  `pkg/cmd/turbo/main.go:61-68` does (`InvRegular`).
* The watchdog answers 0 to a packet with good flags even when it does not accept it because its
  timestamp is old or far from the clock: a passed tick does not mean an accepted heartbeat
  (`ZeroWithoutAcceptIff`; it happens when the wall clock is stepped back, `SteppedBackClock`).
* A node is under watch from the first tick that gets the server lock, and from then on as long as it
  runs unmarked (`CoveredIff`, `SeenStays`, `BoundedResponse`). Before that tick its stall is bounded by
  the nodes that are watched; it is unbounded exactly while the latest snapshot has no native node
  (`UnboundedIffNoneSeen`, with a run in `NeverSeenStalls`).
* A healthy runtime can be reported unhealthy because the snapshot ages while the lock is taken: failed
  attempts that fit in 40 ms by themselves do it exactly when they do not fit together with the longest
  age of a beating node, a gap and a delay less 2 us (`HealthHolds`, `FalseReportIff`). With ticks 10 ms
  apart, and scheduling and delivery that take at most 5 ms, two failed attempts in a row are always
  tolerated (`TwoFailuresTolerated`), three are not (`ThreeFailuresAreNot`).

### Runtime data structures

`Budget` is the rule that stops a node, stated on histories; `Executor` the cooperative executor;
`PluginLoop` the same accounting inlined in the plugin runner; `Pool` the leased buffers; `LogRing` the
bounded log and a stream's cursor; `Rotation` the watchdog's log rotation. Exactly on a tick that fails
and is also the third overrun in a row, the executor reports the overruns and the plugin loop the
failure (`FaultsDifferIff`, `FaultsDiffer`). A recycled pool buffer keeps its old contents (`Pool.TakePooled`).

## Model

| member | source | states |
|---|---|---|
| Lexer.Lex | pkg/migration/migration.go:49-107 | the loop returns exactly the tokens of the declarative scan, and an error exactly when the scan meets an open literal |
| Lexer.Next | pkg/migration/migration.go:51-105 | one round of the loop recognises the one piece that stands at the position, or none because a literal is open |
| Lexer.SkipLiteral | pkg/migration/migration.go:60-86 | finds the first unescaped closing delimiter of a single or triple-quoted literal, or shows that there is none |
| Lexer.SkipWord | pkg/migration/migration.go:91-101 | a name is maximal to the right |
| Lexer.SkipComment | pkg/migration/migration.go:54-59 | a comment runs to the end of its line |
| Lexer.ReadsUnique | pkg/migration/migration.go:51-105 | at most one piece can stand at a position: the grammar is unambiguous |
| Lexer.NoFirstIffUnterminated | pkg/migration/migration.go:81-83 | the only way not to find a piece is a literal that is never closed |
| Lexer.ReadsLocal | pkg/migration/migration.go:51-105 | a piece is recognised again wherever its bytes stand and what follows still ends it |
| Grammar.LexMeansSegmentation | pkg/migration/migration.go:47-107 | lex succeeds with ts iff the text is a sequence of pieces whose tokens are ts |
| Grammar.LexFailsIffOpenLiteral | pkg/migration/migration.go:81-83 | lex fails iff a segmentation runs into an unterminated literal |
| Grammar.ScanSlices | pkg/migration/migration.go:84-104 | tokens are nonempty slices of the source, in order and disjoint |
| Grammar.ScanKinds | pkg/migration/migration.go:84-104 | a token's kind fits its text: quotes around literals, name characters in names, one byte otherwise |
| Quoting.QuoteLexes | pkg/migration/migration.go:60-86 | any text, quoted with one or three quotes and a backslash before each backslash and quote, lexes to that one literal wherever it stands, and reads back; only empty single quotes must not be followed by a third |
| Quoting.QuoteAlone | pkg/migration/migration.go:60-86 | a source that is one quoted text lexes to exactly one literal token with that text |
| Quoting.DoubledBackslash | pkg/migration/migration.go:71-74 | a text that ends in a backslash, which is doubled before the closing quote, is one literal |
| ByteTexts.ByteClasses | pkg/migration/migration.go:51-105 | which bytes are space, begin a name, continue it, or are quotes, by code |
| ByteTexts.NameLexes | pkg/migration/migration.go:91-101 | by byte codes: a name up to the first byte that does not continue it lexes to that one name |
| ByteTexts.NothingLexes | pkg/migration/migration.go:54-59 | by byte codes: a comment up to its line break and a white byte lex to nothing |
| ByteTexts.MarkLexes | pkg/migration/migration.go:103-104 | by byte codes: any other byte that is no quote is a mark of its own |
| Edits.Splice | pkg/migration/migration.go:237-246 | the right-to-left splice succeeds iff the edits are pairwise disjoint, and then equals applying them all at once, whatever order the sort gives to equal starts |
| Edits.CopyRun | pkg/migration/migration.go:240-246 | bytes outside every edit are copied, in order |
| CallFinder.FindClose | pkg/migration/migration.go:121-142 | the scan ends at the first token where the parentheses balance, reports too deep nesting iff a depth over 256 comes first, and unbalanced iff neither happens |
| CallFinder.Calls | pkg/migration/migration.go:111-146 | the loop returns the specified calls or the specified error |
| CallFinder.CallsAreHeads | pkg/migration/migration.go:111-146 | on success: exactly one call for each `rospy . name (` token group, in source order, ending at its balancing parenthesis; success iff every group closes |
| CallFinder.CallsFailAt | pkg/migration/migration.go:136-142 | on failure: the error is that of the first call head that does not close, nested too deep or unbalanced |
| CallFinder.InnerGoesNegative | pkg/migration/migration.go:117-143 | counted from a call inside an open call, the balance is negative where the outer call closes: the inner one has closed before |
| CallFinder.CallsNest | pkg/migration/migration.go:117-143 | two calls are disjoint or one lies strictly inside the other's arguments |
| CallFinder.BalanceCounts | pkg/migration/migration.go:121-142 | the balance is the number of `(` less the number of `)` outside of literals; brackets and braces do not count |
| CallFinder.ClosingMeans | pkg/migration/migration.go:121-142 | a call ends at the first token after which none of its parentheses is open, and is too deep iff more than 256 are open before |
| CallFinder.FlatCallCloses | pkg/migration/migration.go:121-142 | a call without parentheses in its arguments, whatever else is in them, closes at the first `)` |
| Imports.ImportEditIff | pkg/migration/migration.go:161-163 | the edits of the import expression are exactly the matches at line starts |
| Imports.MatchIsLine | pkg/migration/migration.go:43 | a match is one whole line, with its newline if it has one |
| ByteTexts.ImportMatchIff | pkg/migration/migration.go:43 | the import expression matches a text iff that is blanks, `import rospy`, blanks, a comment or none, and a newline or the end of the source |
| ByteTexts.ImportEditsAre | pkg/migration/migration.go:161-163 | the import edits are one for each line of that form, with the note in its place, and no other |
| Imports.ImportEditsAscend | pkg/migration/migration.go:161-163 | import edits are in source order and disjoint |
| Imports.ImportLineCut | pkg/migration/migration.go:161-163 | a match that begins where the lexer cuts also ends at a cut |
| Imports.LineStartCut | pkg/migration/migration.go:43 | the start of a line is a cut of the lexer or lies inside a string literal |
| MigrationTheorems.ImportEditKnown | pkg/migration/migration.go:161-163 | an import edit replaces a group of whole tokens, unless it begins inside a string literal |
| Replacements.HelperLexes | pkg/migration/migration.go:164-180 | a helper replacement lexes to its name and an opening parenthesis |
| Replacements.LogLexes | pkg/migration/migration.go:207-208 | a log replacement lexes to the call with its level literal |
| Replacements.ShutdownLexes | pkg/migration/migration.go:203-204 | the shutdown replacement lexes to its own tokens, parentheses included |
| Replacements.NoteText | pkg/migration/migration.go:162 | the import note lexes to nothing |
| Conversions.HelperIs | pkg/migration/migration.go:164-180 | the table has a helper for exactly the twelve functions, named after them: `_rosplus_` and the name in lower case (`init` for init_node), `_RosPlus` and the name for Rate and Duration |
| Conversions.HelpersDiffer | pkg/migration/migration.go:164-180 | different functions have different helpers |
| Relexing.LexingCommutes | pkg/migration/migration.go:237-246 | if every edit replaces whole tokens by a self-contained text, the rewritten text lexes to the tokens with each edited group replaced |
| Relexing.CommutesIff | pkg/migration/migration.go:237-246 | for edits that are aligned or begin inside a literal: lexing commutes with the rewrite iff none begins inside a literal |
| Transformer.VisitCall | pkg/migration/migration.go:178-212 | the edit and the warnings of one call |
| Transformer.VisitTokens | pkg/migration/migration.go:213-236 | the warnings of all tokens, an uncovered `rospy` among them |
| Transformer.IsCovered | pkg/migration/migration.go:225-231 | a token is covered iff one edit contains it |
| Reports.WarnedIff | pkg/migration/migration.go:158-236 | exactly which warnings come with a conversion: each is there iff some call or name of the source is of its kind |
| ByteTexts.BlankRunesIff | pkg/migration/migration.go:203 | the blank-argument test holds iff the text is the UTF-8 encoding of white space |
| Transformer.Transform | pkg/migration/migration.go:148-246 | the whole pass: size limit, call errors, warnings in order, overlap error or the rewritten text |
| Transformer.EditsInside | pkg/migration/migration.go:157-212 | every edit is a nonempty span inside the source |
| MigrationTheorems.OutputLexesIffClean | pkg/migration/migration.go:148-246 | the output lexes to the source's tokens with every edited group replaced iff no import line begins inside a literal |
| Conversions.HelperHead | pkg/migration/migration.go:178-200 | in the output, the head `rospy.f(` of every call of a mapped function is the lexeme of its own helper and a parenthesis, between the conversions of what is before and after it |
| Conversions.LogHead | pkg/migration/migration.go:206-209 | the head of loginfo, logwarn, logerr and logdebug becomes the log helper with the literal info, warning, error or debug and a comma |
| Conversions.ShutdownCall | pkg/migration/migration.go:203-205 | a shutdown test with blank arguments becomes `(not _rclpy.ok())`, token by token |
| MigrationTheorems.LiteralsUncovered | pkg/migration/migration.go:157-246 | under that condition no edit contains a string literal, so every literal survives |
| MigrationTheorems.LaterCallClear | pkg/migration/migration.go:178-212 | a later call never begins inside the span an earlier call's edit replaces |
| MigrationTheorems.CallEditsAscend | pkg/migration/migration.go:178-212 | edits made from calls are pairwise disjoint and in order, nested calls included |
| MigrationTheorems.FailsIff | pkg/migration/migration.go:148-156 | the pass fails as too large iff the source has more than 2 MiB, as unterminated iff a literal is open, and otherwise as the first call head that does not close says |
| MigrationTheorems.OverlapIffImportMeetsCall | pkg/migration/migration.go:157-246 | the overlap error is raised iff an import line and an edited call share bytes |
| ImportMeetsCall.OverlapIffHeadInImport | pkg/migration/migration.go:157-246 | with clean imports, the overlap error is raised iff the head of an edited call lies in an import line |
| ImportMeetsCall.ImportStartsOutside | pkg/migration/migration.go:161-212 | a clean import line never begins inside the span that a call's edit replaces |
| MigrationTheorems.RospyLeftIffReported | pkg/migration/migration.go:224-235 | with clean imports, an unconverted reference is reported iff the output still has a `rospy` name |
| MigrationTheorems.NothingLeftToConvert | pkg/migration/migration.go:111-246 | with clean imports and no such report, the call finder finds nothing in the output |
| MigrationTheorems.LiteralAlteredSilently | pkg/migration/migration.go:161-163 | every source that is one string literal with an import line in it is changed, and the only warning there can be is that the unsupported-import expression matches too |
| MigrationTheorems.QuotedImportAltered | pkg/migration/migration.go:161-163 | a concrete source on which it happens |
| QuotedCode.TextBecomesCode | pkg/migration/migration.go:43 | a source of two quoted texts and a comment that is converted without a warning into an output with a live rospy call: the statements on remaining names need clean imports |
| SupervisionInvariant.StepInv | pkg/server/process.go:105-343 | every step keeps: one waiter per active node, none for a finished one, done closed exactly at the finish, active nodes listed under their names, bounded restarts, progress times set and not in the future |
| SupervisionInvariant.RunInv | pkg/server/process.go:105-369 | the same over whole runs |
| EStop.StopHalts | pkg/server/process.go:344-354 | stop with an empty name marks every active node of the workspace, also one asleep in a restart |
| EStop.HaltedStep | pkg/server/process.go:308-324 | a halted workspace with no run past its check starts nothing and stays halted |
| EStop.QuietForever | pkg/server/process.go:105-139 | once quiet, a workspace starts nothing in any continuation |
| EStop.SweepIsFinal | pkg/server/safety.go:142-152 | after the latch, one sweep of a workspace rules out every later start in it, in every interleaving |
| EStop.SweptStep | pkg/server/server.go:319-330 | a DELETE halts its workspace before it lets go of it, and no run gets in between |
| EStop.UnlistedIsQuiet | pkg/server/safety.go:143-148 | when the sweep list is taken, a workspace that is not on it is deleted or has no node yet and can start nothing |
| EStop.TripIsFinal | pkg/server/safety.go:137-155 | once all listed workspaces have been stopped after the latch, in any order and with anything in between, no process is ever started again anywhere |
| EStop.EStopStays | pkg/server/safety.go:137-139 | neither the latch nor the closing flag is ever cleared |
| LateStarts.LateStartIff | pkg/server/process.go:298-324 | with the latch set, some continuation starts a process iff a run is past its check, or the server is not closing and some unmarked node is asleep before a restart, about to be restarted, or running under a policy that restarts it after some exit |
| LateStarts.NextStartIff | pkg/server/process.go:134-139 | the very next step can start a process iff a run is past its check or an unmarked restart is asleep and the server is not closing |
| LateStarts.RunningNodeComesBack | pkg/server/process.go:308-317 | a run in which the latch is set while a node runs: no next step can start a process, yet the restart after its exit does |
| LateStarts.LatchAloneIsNotEnough | pkg/server/process.go:109-139 | a run in which the latch falls between the check and the start of a process |
| EStop.CloseIsFinal | pkg/server/server.go:499-511 | from the moment the closing flag is set nothing is started, by run or by restart |
| EStop.StoppingNodeFinishes | pkg/server/process.go:298-343 | a marked node ends stopped, its done channel closed once, as soon as its waiter has taken its remaining steps |
| Generations.OneWaiter | pkg/server/process.go:285-343 | a node is active iff it has a waiter, it has at most one, and done is closed exactly once at its finish |
| Generations.OneProcessPerName | pkg/server/process.go:131-138 | no workspace has two unreaped processes under one node name |
| Generations.FinishedForever | pkg/server/process.go:325-342 | a finished node is never changed again |
| Generations.NativeFailureIsFinal | pkg/server/process.go:300-308 | an unexpected native exit latches the E-Stop and is never followed by a restart |
| Generations.StartsBounded | pkg/server/process.go:308-310 | each node is started at most once more than its restart limit, at most 101 times |
| RestartPolicy.ExitOutcome | pkg/server/process.go:298-342 | an exit leads to a restart iff the node is unmarked, the server not closing, restarts are left, and the policy is always and it was no native failure, or on-failure and a legacy process failed; otherwise the node is finished; the latch is set iff an unmarked native node failed |
| RestartPolicy.WakeOutcome | pkg/server/process.go:313-342 | a sleep ends with a new process iff the node is unmarked, the server not closing and the start succeeds; otherwise the node is finished |
| RestartPolicy.CleanExitIsFinal | pkg/server/process.go:308-342 | in no continuation is an on-failure node that exited cleanly started again |
| RestartPolicy.StartedOnce | pkg/server/process.go:308 | in every run a node with the policy never, or a native one with on-failure, is started at most once |
| RestartPolicy.StopMarks | pkg/server/process.go:344-354 | stop marks exactly the running and starting nodes of the workspace with the given name, or all of them if none is given, and changes nothing else |
| RestartPolicy.RunPassesIff | pkg/server/process.go:99-133 | run passes its checks iff the limit is 0..100, nothing is latched or closing, the workspace is listed and no node of that name runs or starts there |
| RestartPolicy.RunEnters | pkg/server/process.go:134-140 | a successful run enters one running, unmarked node as requested, with a new process and, if native, progress now |
| RestartPolicy.FailedStart | pkg/server/process.go:134-137 | a start that fails enters nothing |
| RestartPolicy.HeartbeatCounts | pkg/server/process.go:268-283 | a heartbeat counts iff it is from the running process of a native node and its counter is above the last |
| RestartPolicy.NewSpaceRuns | pkg/server/server.go:127-175 | a created workspace is listed, and a run in it starts its process |
| RestartPolicy.DeletionRun | pkg/server/server.go:317-330 | a deletion marks the running and starting nodes of its workspace and takes it off the list iff its directory was removed |
| Generations.OldGenerationSilent | pkg/server/process.go:268-283 | once a process is not the running process of its node, no packet of it is ever accepted |
| Generations.BeatsIncrease | pkg/server/process.go:275-280 | the packets accepted from one process have strictly increasing counters and times that do not go back |
| Generations.ProgressStep | pkg/server/process.go:222-283 | a node's progress time never moves back, is never unset, and is not in the future |
| Server.Server.Create | pkg/server/server.go:116-175 | takes exactly the create step; refused while closing |
| Server.Server.RunCheck | pkg/server/process.go:99-133 | takes exactly the check step; each refusal has its cause, in the order of the checks |
| Server.Server.RunStart | pkg/server/process.go:134-140 | takes exactly the start step; the node is entered only if its process started |
| Server.Server.Start | pkg/server/process.go:143-266 | the state changes of start: progress reset, process, waiter, or a failure before or after the reset |
| Server.Server.Mark | pkg/server/process.go:346-353 | the loop of stop marks and lists exactly the active nodes of the given name |
| Server.Server.Stop | pkg/server/process.go:344-354 | takes exactly the stop step |
| Server.Server.CaptureProgress | pkg/server/process.go:268-283 | takes exactly the progress step |
| Server.Server.Exit | pkg/server/process.go:298-343 | takes exactly the exit step: latch on a native failure, restart or finish |
| Server.Server.Wake | pkg/server/process.go:313-343 | takes exactly the wake step: re-check stopping and closing, start or finish |
| Server.Server.Finish | pkg/server/process.go:325-342 | the end of a node: status, done closed, waiter gone |
| Server.Server.TripSafety | pkg/server/safety.go:159-165 | sets the latch iff there is a safety monitor |
| Server.Server.DeleteStop | pkg/server/server.go:320-322 | takes exactly the sweep step of a deletion |
| Server.Server.DeleteEnd | pkg/server/server.go:323-330 | takes exactly the last step of a deletion: the item goes only if its directory did |
| Server.Server.CloseMark | pkg/server/server.go:501-507 | sets the closing flag and lists every workspace |
| SafetyLoop.OldestIff | pkg/server/safety.go:101-106 | the minimum loop finds the oldest progress iff no node has the zero time or the last one visited has it |
| SafetyLoop.InvRegular | pkg/server/process.go:222-231 | with the monitor started first, every native node has a progress time and every running node is listed |
| SafetyLoop.CountSpace | pkg/server/safety.go:98-109 | the inner loop adds the running nodes of one workspace to the counters and the minimum, in any visiting order |
| SafetyLoop.TakeSnapshot | pkg/server/safety.go:93-111 | the nested loop counts the running nodes, the watched native ones, and finds their oldest progress, in any visiting order |
| SafetyLoop.WatchedIff | pkg/server/safety.go:95-106 | in every reachable state the watched nodes are those that are native, running and not stopping, whatever their workspace and policy |
| SafetyLoop.SnapshotSays | pkg/server/safety.go:93-111 | the two counts are the numbers of running nodes and of native, running, non-stopping nodes of listed workspaces |
| SafetyLoop.FreshPacket | pkg/server/safety.go:93-123 | a packet made after a tick got the lock decodes to flags 3 if every native, running, non-stopping node progressed less than 40 ms ago, else to flags 1 |
| SafetyLoop.FlagsArrive | pkg/server/safety.go:118-123 | the watchdog reads the health bit as it was set |
| SafetyLoop.HealthIff | pkg/server/safety.go:112-122 | with a fresh snapshot the health bit is set iff every native, running, non-stopping node has progress newer than 40 ms |
| SafetyLoop.Loop.Refresh | pkg/server/safety.go:93-111 | a tick takes a new snapshot if it gets the lock and keeps the old one otherwise |
| SafetyLoop.Loop.Compose | pkg/server/safety.go:112-123 | health and packet follow from the latest snapshot, aged on; no native node counts as healthy, a zero time does not |
| SafetyLoop.Loop.Conclude | pkg/server/safety.go:131-141 | a tick after the answer: status published, latched on an error or any byte but 0 |
| SafetyLoop.Sweep | pkg/server/safety.go:142-152 | list and stop: afterwards no workspace, listed or not, can start a process |
| Packet.RoundTrip | pkg/server/safety.go:89-123 | the packet decodes to every field modulo its width; the node count wraps at 2^32 |
| Packet.DecodeInjective | crates/rosplus_safety/src/main.rs:67-69 | every 16-byte packet is the encoding of the fields read from it |
| Packet.Places | crates/rosplus_safety/src/main.rs:67-69 | the fields by their bytes: eight of timestamp, four of count, four of flags, low bytes first |
| SafetyProtocol.RunOk | pkg/server/safety.go:83-157 | every event of supervisor, loop and watchdog keeps the protocol invariant |
| SafetyProtocol.HealthBitSound | pkg/server/safety.go:91-123 | while a packet with the health bit is out, every node of the latest snapshot has progress newer than 40 ms at the tick, however many lock attempts failed since |
| Stalls.BoundedResponse | pkg/server/safety.go:88-141 | a node that a snapshot has watched, whose process runs on unmarked in any continuation: unless latched or stopped, it has progressed less than 40 ms + tick gap + reply deadline ago, or the tick that saw it has not ended |
| Stalls.SeenStays | pkg/server/safety.go:91-111 | a watched node stays watched while its process runs on unmarked, whatever the locks do |
| Stalls.TickCoversIff | pkg/server/safety.go:91-111 | a tick covers a running node iff it gets the lock or the latest snapshot covers it already |
| Stalls.UnwatchedIsBounded | pkg/server/safety.go:91-117 | while the latest snapshot has any native node, the stall of every running node is bounded, watched or not |
| Unwatched.CoveredIff | pkg/server/safety.go:91-111 | in every run the health bit covers exactly the nodes that were native, running and unmarked when a tick last got the lock |
| Unwatched.StallsUnnoticed | pkg/server/safety.go:91-117 | while the latest snapshot has no native node, any node can stall for any time, every tick passing |
| Unwatched.UnboundedIffNoneSeen | pkg/server/safety.go:91-117 | between two ticks a running node can stall for 40 ms + tick gap + reply deadline unnoticed iff the latest snapshot has no native node |
| Unwatched.NeverSeenStalls | pkg/server/safety.go:91-117 | a run from the start of the server in which a native node stalls for as long as one likes while every tick passes |
| Stalls.StallLatchesWithin100ms | pkg/server/safety.go:78-141 | with ticks at most 39 ms apart and the 20 ms deadline, the stall of a node that a snapshot has watched latches in under 100 ms |
| Stalls.OneTickIsEnough | pkg/server/safety.go:88-141 | one tick that gets the lock while a native node runs unmarked is enough: whatever follows, 100 ms without progress of that process latch |
| SafetyProtocol.StaleTickLatches | pkg/server/safety.go:112-141 | a tick that watches a stale node ends latched, within the reply deadline |
| SafetyProtocol.SupervisorRuns | pkg/server/safety.go:83-157 | what the whole protocol does to the supervisor is the supervisor run made of its actions, so the finality of the E-Stop and the rest hold of it |
| Stalls.StallEndsAllStarts | pkg/server/safety.go:83-157 | from stall to standstill: a node that a snapshot has watched runs on without progress for 100 ms, then the listed workspaces are swept, and nothing is ever started again |
| SafetyProtocol.DeadWatchdogLatches | pkg/server/safety.go:124-141 | once the watchdog has exited, and unless an answer 0 is already on its way, no further tick passes, and the first one completed latches the supervisor |
| SafetyProtocol.ZeroAnswerMeansHealthy | crates/rosplus_safety/src/main.rs:65-88 | an answer 0 was given to this tick's packet, with the health bit set, before the watchdog's deadline |
| Watchdog.Open | crates/rosplus_safety/src/main.rs:29-62 | starts iff the timeout is 5..1000 ms, unarmed, with its first event |
| Watchdog.Monitor.Read | crates/rosplus_safety/src/main.rs:64-94 | the receiving half of an iteration: flags, deadline, acceptance and the byte sent back |
| Watchdog.Monitor.Step | crates/rosplus_safety/src/main.rs:63-107 | one iteration of the loop takes exactly the specified step and gives the specified answer |
| WatchdogRuns.RunOk | crates/rosplus_safety/src/main.rs:57-107 | in every run: LOW first, then strictly alternating HIGH and LOW only after an accepted heartbeat, one final LOW on a trip; accepted packets in order, fresh and in time |
| WatchdogRuns.ChainAscends | crates/rosplus_safety/src/main.rs:78-84 | accepted timestamps strictly increase and lie within the timeout of the wall clock |
| WatchdogRuns.ExitIsFinal | crates/rosplus_safety/src/main.rs:98-110 | nothing happens after the exit |
| WatchdogRuns.TripIff | crates/rosplus_safety/src/main.rs:72-97 | an iteration trips iff the flags are bad or one of the two deadline checks fails |
| WatchdogRuns.UnarmedTripIff | crates/rosplus_safety/src/main.rs:72-97 | an unarmed watchdog trips iff the flags are bad, or the very iteration that accepts the first packet takes longer than the timeout |
| WatchdogRuns.AcceptIff | crates/rosplus_safety/src/main.rs:70-84 | a packet is accepted iff its flags are good, the deadline has not passed, and its timestamp is newer and close to the clock |
| WatchdogRuns.ZeroReplyIff | crates/rosplus_safety/src/main.rs:85-87 | the answer is 0 iff the flags are good and the deadline has not passed, accepted or not |
| WatchdogRuns.ZeroWithoutAcceptIff | crates/rosplus_safety/src/main.rs:70-87 | a packet is answered 0 and not accepted iff its flags are good, it is in time, and its timestamp is not newer or too far from the clock |
| WatchdogRuns.SteppedBackClock | crates/rosplus_safety/src/main.rs:78-87 | after the wall clock was stepped back, a later packet with an older timestamp is answered 0 and ignored |
| WatchdogRuns.RunningIsInTime | crates/rosplus_safety/src/main.rs:95-97 | an armed watchdog still running has its deadline ahead |
| WatchdogRuns.SilenceTrips | crates/rosplus_safety/src/main.rs:95-101 | without further accepted heartbeats every deadline check comes less than the timeout plus one iteration after the last, and the first at or after the timeout finds it exited |
| WatchdogNumbers.AcceptedInNumbers | crates/rosplus_safety/src/main.rs:66-84 | in every run: a packet is accepted, as it came, iff both flag bits are set, the last accepted one is less than the timeout old, its timestamp is newer and lies within timeout milliseconds of the wall clock |
| WatchdogNumbers.AnswerInNumbers | crates/rosplus_safety/src/main.rs:65-88 | in every run: a datagram is answered iff it has 16 bytes, with 0 iff both flag bits are set and the last accepted packet is less than the timeout old |
| WatchdogNumbers.TripInNumbers | crates/rosplus_safety/src/main.rs:64-101 | in every run: an iteration trips iff a flag bit is missing or the last accepted packet is the timeout old at one of the two checks, with a final LOW |
| WatchdogNumbers.PulseInNumbers | crates/rosplus_safety/src/main.rs:102-106 | in every run: an armed watchdog that runs on changes its output, to the other level, iff 500 us have passed since the last change |
| Heartbeat.Heartbeat.Beat | crates/rosplus_core/src/heartbeat.rs:36-46 | beats iff forced or 10 ms have passed; packets stay dense; the newest is then less than 10 ms old |
| Heartbeat.Heartbeat.WaitUntil | crates/rosplus_core/src/heartbeat.rs:48-55 | a wait ends after its deadline, and its packets are in order and less than 15 ms and five times the scheduling slack apart, also from those of earlier waits |
| Tracking.ProgressTracks | pkg/server/process.go:268-283 | in every run of the supervisor, when the packets of the running process are handled after they were written and within a delay, the progress time of its node is no older than any packet older than the delay |
| Tracking.LaunchTracks | pkg/server/process.go:222-231 | in every run the progress time of a running native node is no older than the launch of its process |
| Heartbeat.CounterAdvancesIff | crates/rosplus_core/src/heartbeat.rs:41 | each packet's counter is above the last one's except when it wraps at 2^64 |
| Heartbeat.NewestDelivered | pkg/server/process.go:268-283 | with packets less than a gap apart and handled within a delay, at any time some handled packet is no older than a gap and a delay less 2 us, if the last one is not |
| NoFalseTrip.HealthHolds | pkg/server/safety.go:91-117 | in every run of the protocol from the start of the server: if the watched nodes beat when the latest snapshot was taken, those just launched included, the packet that is out has the health bit set as long as their longest age and the age of the snapshot fit in 40 ms |
| NoFalseTrip.BeatingIsRecent | pkg/server/process.go:222-283 | a watched node whose packets are less than a gap apart, not overdue and handled within a delay, its launch counting as the first, has progressed within a gap and a delay less 2 us |
| NoFalseTrip.TwoFailuresTolerated | pkg/server/safety.go:78-117 | with runtimes that wait in wait_until, slack and delay within 5 ms, and ticks at most 10 ms apart, two failed lock attempts in a row are tolerated in every run, also right after a launch |
| FalseTrip.BoundIsTight | pkg/server/safety.go:91-117 | beyond the bound there is a run from the start of the server that reports a node unhealthy which beat at the snapshot, has beaten since and made progress within 40 ms, for any least distance of its packets |
| FalseTrip.FalseReportIff | pkg/server/safety.go:91-117 | the given number of failed lock attempts can make such a false report iff it does not fit in 40 ms together with the longest age of a beating node |
| FalseTrip.ThreeFailuresAreNot | pkg/server/safety.go:78-117 | with packets at least 10 ms and less than 15 ms and the slack apart and ticks every 10 ms, a run with three failed attempts makes a false report |
| Budget.StopRule | crates/rosplus_core/src/executor.rs:71-101 | by history: active iff no tick failed and no three consecutive ticks overran; stopped right after the first tick that breaks this; counters exact |
| Budget.HealthyGrows | crates/rosplus_core/src/executor.rs:84-96 | one more tick keeps the rule iff it did not fail and fewer than three overruns trail |
| Budget.ActiveIff | crates/rosplus_core/src/executor.rs:84-96 | a node is active after a history iff no tick failed and no three in a row took more than eleven tenths of the budget each |
| Budget.MissedCounts | crates/rosplus_core/src/executor.rs:81-83 | the missed counter is the number of ticks over budget |
| Executor.Entry.Turn | crates/rosplus_core/src/executor.rs:76-99 | one tick of one entry, overruns overriding an error, shutdown on the stop |
| Executor.InsertOrdered | crates/rosplus_core/src/executor.rs:61-68 | a newcomer keeps the order: descending priority, first in first among equals, names unique |
| Executor.OrderUnique | crates/rosplus_core/src/executor.rs:68 | that order is determined by the elements, so it is what any stable sort yields |
| Executor.HigherFirst | crates/rosplus_core/src/executor.rs:68 | a node comes before another iff its priority is higher, or equal and it was admitted first |
| Executor.LifeOfANode | crates/rosplus_core/src/executor.rs:52-100 | over any outcomes a node is initialised once, runs exactly the ticks up to its stop, and is shut down once iff the outcomes broke the rule |
| Executor.Runtime.Add | crates/rosplus_core/src/executor.rs:43-70 | refuses exactly duplicate names, admits nothing whose init failed, else inserts at its place |
| Executor.Runtime.TickAll | crates/rosplus_core/src/executor.rs:71-101 | ticks every active node once and leaves the others, the order and the names alone |
| Executor.Runtime.Drop | crates/rosplus_core/src/executor.rs:106-114 | afterwards every node ever admitted has been shut down exactly once, after its last tick |
| PluginLoop.Run | crates/rosplus_core/src/plugin.rs:162-242 | the loop stops at the tick of the budget rule, with the same counters, unless it has completed the wanted ticks |
| PluginLoop.FaultMeans | crates/rosplus_core/src/plugin.rs:212-233 | which of its three faults a turn is: a negative status, an output over the buffer, or neither |
| PluginLoop.SameStop | crates/rosplus_core/src/plugin.rs:204-233 | without a tick limit it stops at the same tick as the executor on the same history |
| PluginLoop.FaultsDifferIff | crates/rosplus_core/src/plugin.rs:212-233 | for every stopped run: executor and loop name the fault differently iff the stopping tick fails and is at least the third overrun in a row |
| PluginLoop.FaultsDiffer | crates/rosplus_core/src/plugin.rs:212-233 | an input on which they do, for every budget |
| Pool.Open | crates/rosplus_core/src/pool.rs:18-34 | succeeds iff the pool is nonempty and at most 512 MiB |
| Pool.Pool.TakePooled | crates/rosplus_core/src/pool.rs:37-43 | a lease of the buffer freed last |
| Pool.Pool.Acquire | crates/rosplus_core/src/pool.rs:35-57 | pooled iff the message fits and a buffer is free, else a counted heap lease, else refused; free and leased buffers always make up the capacity and none has two owners |
| Pool.Pool.Release | crates/rosplus_core/src/pool.rs:75-84 | the final release returns exactly its own buffer |
| Pool.Pool.Stats | crates/rosplus_core/src/pool.rs:58-65 | leased and free add up to the capacity; the spill count is the number of heap leases granted |
| LogRing.Log.Append | pkg/server/server.go:101-112 | the retained log is always the last 1000 of all events, numbered without gaps, messages cut to 16384 |
| LogRing.ClipKeeps | pkg/server/server.go:101-104 | a message of up to 16384 bytes is kept, a longer one is cut there and noted |
| LogRing.LastGrows | pkg/server/server.go:108-111 | trimming after every append keeps the last ones of all |
| LogRing.Collect | pkg/server/websocket.go:84-90 | the loop sends exactly the retained events after the cursor and moves the cursor to the newest |
| LogRing.Stream.Tick | pkg/server/websocket.go:78-90 | a tick sends the history from the first event after the cursor that is still retained; over all ticks the numbers of what was sent are those of Sent |
| LogRing.SentAscends | pkg/server/websocket.go:65-101 | the numbers sent over all ticks of a stream are strictly increasing, without duplicates |
| LogRing.SentIff | pkg/server/websocket.go:65-101 | a stream has sent an event iff it was still retained at the first tick after it: missed are exactly those trimmed between two ticks |
| Rotation.Rotate | crates/rosplus_safety/src/main.rs:113-128 | the downward loop moves every file up one; on an error exactly the files above it have moved |
| Rotation.ShiftOne | crates/rosplus_safety/src/main.rs:114-126 | a rename never overwrites a file that still has to move |
| Rotation.NothingElseLost | crates/rosplus_safety/src/main.rs:113-128 | however far it gets, only the last retained file can be lost |
| Rotation.CyclesKeepNewest | crates/rosplus_safety/src/main.rs:113-128 | after any number of write-then-rotate cycles file i holds the i-th most recently retired log up to the limit, without gaps and nothing beyond |

## Left out

- The prologue of a converted file and the moving of future imports (pkg/migration/migration.go:247-264), and `Tree`: string concatenation and file traversal.
- The expression for unsupported imports: its verdict is a parameter of `Transform`, it only adds a warning.
- Deduplication and sorting of warnings: they are kept as a list in the order they arise.
- The generated Python helpers and any claim that converted programs behave alike: that needs the semantics of rclpy.
- Validation of run requests other than the restart limit, and how a node's name follows from its target (pkg/server/process.go:69-98, 115-130): the name is part of the request.
- Names and templates of workspaces, and the workspaces found on disk at start-up: creation is modelled as far as the E-Stop needs it.
- Builds: they only hold the build lock for a while; a busy build lock means that run and DELETE do not take their steps.
- Operating-system effects: whether a process starts, how it exits, what a pipe delivers, whether a directory can be removed and how long things take are parameters. Signals are not modelled, so `stop` marks nodes and their exits come as they come; the waiting half of `stop` is not modelled.
- Identity of nodes in the step machine is a number instead of a pointer; the class `Server` has the objects themselves and proves them distinct.
- Workspace and node log lines, uptime and usage figures, and workspace status strings of the supervisor.
- The instant at which `start` reads the clock for the first progress time is that of the step.
- Killing the watchdog after a trip and on `Close`; the loop's end is modelled, the watchdog's is its own.
- Writing failures of the watchdog's event log, of heartbeat pipes and of publishing in the plugin loop: they end the program.
- Parsing of command-line values of the watchdog and the path of its socket; datagrams from other senders, the socket is private to the supervisor.
- The 110% rule is exact integer arithmetic; the rounding of `mul_f64` is not modelled. Worst-case times are kept in the unit of the budget.
- Overrun counters of eight bits never exceed three; sequence numbers and tick counts are unbounded.
- Tracking.ProgressTracks: packet i carries the counter i + 1, without the wrap at 2^64 that Heartbeat.CounterAdvancesIff describes.
- Overflow of the pool size in 64 bits: any product over 512 MiB is refused either way.
- Buffers are shared through `Arc`; only a lease's final release is a step.
- HTTP, JSON, authentication, file endpoints, transport, CLI, React frontend and website.
- The C adapter, plugin loading and ABI checks, scheduling calls, and the older Python package in src/rosplus.
