# Figaro: a verified model

Figaro is a coding-agent daemon. A conversation is an append-only log of messages; while an
agent works, its open message streams to any number of viewers as versioned field deltas, is
painted inline on a terminal, and is finally sealed into the log. This project models the parts
of that machinery whose correctness is not visible in any one function, and proves what they
promise each other.

| files | component |
|---|---|
| `Utf8`, `Livedoc`, `Aria` | byte strings and UTF-8, the one-region string splice, nodes and their field deltas |
| `AriaServer`, `AriaClient`, `AriaReplication`, `AriaBounded` | the replication protocol: both objects, every run of one against the other, and the client with a bounded memory |
| `Terminal`, `Incipit` | the small VT the repository uses as its reference terminal, and the inline painter against it |
| `Message`, `ToolText`, `Turn`, `Compose`, `Interrupted` | the log's messages, the turn state machine with interrupts, errors, panics and repair, and the live view composed from it, down to the server's block list |
| `PartialJson`, `PartialJsonUtf8`, `JsonGrammar` | the reader of truncated JSON, and its agreement with the JSON grammar |
| `Paging`, `Selection` | backward pages, the forward page built from them by bisection, and copying a range of nodes through them |
| `Projection`, `Metrics` | incremental folds of the log against the same folds from scratch |
| `Strings`, `LineEnding`, `EditDiff`, `FileLock` | several edits to one file at once, and the lock table that serialises them |
| `Levenshtein`, `Governor`, `Sanitize` | the nearest command name, bounded tails of tool output, stripping of escape sequences |

Code that updates an object or a buffer in place is a class or a method with loops here too;
what it computes is then tied to a function of the old state, and the theorems are about that
function over every run.

## What the proofs found

In some places a comment or the obvious expectation is stronger than what the code does. In
each of them the model follows the code, and the exact condition is proved.

- **Minimal diffs** (`internal/livedoc/livedoc.go:59`). Among the edits that respect runes,
  `Diff` deletes the least exactly when its prefix scan does not stop inside a rune of a string
  that is a plain insertion into, or deletion from, the other (`DiffIsLeastIff`,
  `DiffNotAlwaysLeast`); on ASCII it is always least (`DiffIsLeastOnAscii`).
- **Closing an empty message** (`internal/livelog/aria/types.go:81`). A message without nodes is
  indistinguishable from a close marker, so a client in step asks to resume exactly for such a
  close or commit (`StepSynced`, `OpenThenCloseDesyncs`). The re-read it then makes brings it back
  exactly when no such message was closed, so it does not help here (`ResumeSyncedIff`).
- **Painting from the last line** (`internal/livelog/render/fake.go:87`). Cursor-down does not
  scroll, so a repaint shows its rows exactly when the first changed row is reachable
  (`RepaintShowsIff`, `Painter.Paint`). A composed message with a header misses it exactly when
  it starts on the last line of the viewport (`HeaderShownIff`, `BottomLineLosesBlank`), and a
  growing region when it fills the viewport from below its top (`AppendedRowIff`,
  `GrowthAtBottomOverwrites`).
- **Sealing beside a live message** (`internal/livelog/render/incipit.go:85-98`). A message that
  was never shown is printed from the cursor on, which is parked on the live region: its rows
  survive exactly when each printed row is a prefix of one of them, and the painter's account of
  the cursor is wrong from then on (`Painter.SealUnseen`, `HeaderGoesOverLive`).
- **Interrupted calls** (`internal/figaro/turn_seal.go:159-191`). A call that the provider seals
  without an id, a name or arguments is answered if the round runs to its end. If it is cut
  short, the log ends with every call answered exactly when all calls are complete
  (`InterruptedSealIff`, `IncompleteCallStaysOpen`, `DriveOneRound`), and a half-streamed call
  that was on screen is dropped from the composed list (`InterruptedSealShowsIff`,
  `HalfStreamedCallGoes`); the server, which drops nothing, then differs from it exactly when that
  call had been emitted (`InterruptedTurnIff`).
- **Copying through pages** (`internal/cli/transcript_selection.go:233`). A run of messages
  without nodes as long as a page makes a copy fail although both endpoints are there; the copy
  succeeds exactly when there is no such run (`SelectionText`, `PageSizeCanMatter`).
- **Unique old text** (`internal/tool/editdiff.go:70`). The count is taken of the normalised text
  in the normalised base, and of occurrences that do not overlap: the check passes exactly when all
  of these overlap the first one (`UsableIff`). That is not uniqueness in the file: a text that is
  there once can be refused (`OnceButRefused`), and one that is there twice accepted, overlapping
  (`OverlapAccepted`) or apart (`TwiceButAccepted`).
- **Line endings** (`internal/tool/linending.go:14-43`). Normalising and restoring gives a file
  back exactly when it has no CR at all or every break is CR LF (`RoundTripIff`,
  `MixedEndingsChange`).

## Model

| member | source | states |
|---|---|---|
| Livedoc.Apply | internal/livedoc/livedoc.go:41-57 | a splice with out-of-range positions clamped, for every text and delta |
| Livedoc.Diff | internal/livedoc/livedoc.go:63-94 | the two scans and the two alignments give the delta that the theorems are about; there is none exactly when the texts are equal |
| Livedoc.ApplyUndoesDiff | internal/livedoc/livedoc.go:41-94 | applying the difference of two texts to the first gives the second, for all byte strings |
| Livedoc.AlignPrefixIs | internal/livedoc/livedoc.go:80-85 | the prefix is backed up to the last rune boundary at or before it |
| Livedoc.AlignSuffixIs | internal/livedoc/livedoc.go:86-91 | the suffix is shortened to the first rune boundary within it |
| Livedoc.DiffIsRuneAligned | internal/livedoc/livedoc.go:63-94 | on valid UTF-8 no end of the splice falls inside a rune, and the inserted text is valid UTF-8 |
| Livedoc.DiffIsLeastIff | internal/livedoc/livedoc.go:59-94 | the deletion is least among rune-aligned edits if and only if the scan does not stop inside a rune of a plain insertion or deletion |
| Livedoc.DiffIsLeastOnAscii | internal/livedoc/livedoc.go:59-94 | on ASCII the deletion is least among all splices that turn one text into the other |
| Livedoc.DiffNotAlwaysLeast | internal/livedoc/livedoc.go:59-94 | two valid texts where less could be deleted |
| Aria.FoldDelta | internal/livelog/aria/client.go:219-235 | whatever order the map is walked in, the fold is the one function of node and delta |
| Aria.SetAll | internal/livelog/aria/client.go:220-222 | assigning the fields of a map in any order gives the same node |
| Aria.PatchAll | internal/livelog/aria/client.go:226-233 | splices of distinct fields commute |
| Aria.FullSetFills | internal/livelog/aria/server.go:299-326 | a full set folded into the blank node gives the node on every wire field |
| Aria.FullSetOntoHeldIff | internal/livelog/aria/server.go:299-326 | a full set onto a block that is already held gives the node if and only if no field has to be cleared |
| Aria.FoldUndoesDelta | internal/livelog/aria/server.go:226-296 | folding the server's delta into what the client held gives the new node on every wire field, for new and for known blocks |
| Aria.EmptyDeltaIsNoChange | internal/livelog/aria/server.go:77-88 | a delta is withheld only for a known block none of whose wire fields changed |
| AriaServer.Server.Open | internal/livelog/aria/server.go:63-67 | the whole new state of the server |
| AriaServer.Server.Update | internal/livelog/aria/server.go:71-103 | new blocks go last, known ones are replaced in place, the version rises only with a frame; the page holds exactly the non-empty deltas, and the role in the first frame |
| AriaServer.Server.Close | internal/livelog/aria/server.go:107-127 | the open message joins the closed ones; subscribers get its marker with the last version sent |
| AriaServer.Server.Abandon | internal/livelog/aria/server.go:134-138 | the open message is forgotten without a page |
| AriaServer.Server.Commit | internal/livelog/aria/server.go:142-148 | the message joins the closed ones and goes out whole |
| AriaServer.Server.Read | internal/livelog/aria/server.go:187-209 | every closed message after the cursor, and the open one as full sets at its last version |
| AriaClient.Client.Apply | internal/livelog/aria/client.go:77-154 | closed messages, promotion, desync signal, trimming and live frame, for any page in any state |
| AriaClient.Client.Take | internal/livelog/aria/client.go:82-105 | one committed entry: taken whole, promoted if LT and version agree, or a desync at the resume cursor |
| AriaClient.Client.Stream | internal/livelog/aria/client.go:116-137 | one live frame: a new LT resets the table, each delta is folded into its block |
| AriaClient.Client.TrimClosed | internal/livelog/aria/client.go:156-169 | what lies beyond the limit is dropped in LT order and remembered by the floor |
| AriaClient.Client.View | internal/livelog/aria/client.go:182-209 | the closed messages, none lost, in LT order with ties as they arrived; the open message exactly while there is one, its blocks in their order |
| AriaReplication.UpdateStep | internal/livelog/aria/server.go:71-103 | a client in step stays in step through an update and its frame |
| AriaReplication.CloseStep | internal/livelog/aria/server.go:107-127 | a close marker promotes the client's copy exactly when a frame was sent, else it asks to resume |
| AriaReplication.CommitStep | internal/livelog/aria/server.go:142-148 | a committed message arrives whole exactly when it has nodes |
| AriaReplication.StepSynced | internal/livelog/aria/client.go:77-154 | for every operation: no desync if and only if no empty message is closed, and then server and client agree again |
| AriaReplication.OpenThenCloseDesyncs | internal/livelog/aria/server.go:107-127 | a message closed before anything streamed makes a client in step ask to resume from 0 |
| AriaReplication.RunSynced | internal/livelog/aria/client.go:77-154 | agreement, and silence of the desync signal, over every legal run |
| AriaReplication.JoinSynced | internal/livelog/aria/server.go:187-209 | one read from 0 at any moment puts a fresh client in step |
| AriaReplication.ResumeSyncedIff | internal/livelog/aria/client.go:94-104 | a re-read from the resume cursor, by a client that does not hold the open message, ends in step if and only if no message was closed without nodes; else it asks to resume again |
| AriaReplication.ResumeConverges | internal/livelog/aria/client.go:77-154 | from there on the client stays in step over every legal run |
| AriaReplication.ReplicationConverges | internal/livelog/aria/server.go:71-209 | a client that joins at any point of any legal run and takes every later page holds exactly the server's closed messages and, once a frame of it was sent, its open message |
| AriaBounded.CutHighest | internal/livelog/aria/client.go:156-169 | trimming keeps exactly the messages with the highest LTs |
| AriaBounded.PageRefines | internal/livelog/aria/client.go:77-173 | any one page keeps a bounded client a refinement of the unbounded one, with the same desync signal |
| AriaBounded.BoundedRefinesUnbounded | internal/livelog/aria/client.go:77-173 | after any pages whatever, duplicated or reordered, a client with limit L holds the L highest of the unbounded client's messages, the same open message, and signals the same desyncs |
| AriaBounded.FinalizesOnce | internal/livelog/aria/client.go:82-107 | the unbounded client announces each LT at most once, and holds exactly what it announced |
| Terminal.FakeTerminal.Write | internal/livelog/render/fake.go:45-71 | a list of operations acts as the fold of their single steps |
| Terminal.FakeTerminal.One | internal/livelog/render/fake.go:73-139 | one operation, each final byte the terminal knows: CUU and CUD clamp to the viewport, LF scrolls it, EL and ED cut or clear lines, CUP goes where it is told |
| Terminal.FakeTerminal.Resize | internal/livelog/render/fake.go:36-41 | a new height moves the viewport down just as far as the cursor needs |
| Terminal.StaysOk | internal/livelog/render/fake.go:73-139 | every operation but CUP keeps the cursor inside the viewport |
| Terminal.RunStaysOk | internal/livelog/render/fake.go:45-139 | no output without CUP or clear-screen, however long, moves the cursor out of the viewport or changes a line of the scrollback |
| Terminal.HomeIsScrollback | internal/livelog/render/fake.go:93-111 | once the terminal has scrolled, text at the home position goes into the scrollback |
| Terminal.FakeTerminal.EnsureRow | internal/livelog/render/fake.go:141-145 | missing lines are added blank and none is changed |
| Terminal.LineFeed | internal/livelog/render/fake.go:60-64 | a line feed changes no line and scrolls exactly when it leaves the viewport |
| Terminal.WrittenOver | internal/livelog/render/fake.go:147-153 | text written from the first column replaces just as many characters of the line, and no other line changes |
| Terminal.BelowErased | internal/livelog/render/fake.go:125-131 | ED 0 blanks the cursor line and all below, and nothing above |
| Incipit.DiffRange | internal/livelog/render/incipit.go:20-42 | the first and last differing rows, a missing row read as blank; none exactly when the two look the same |
| Incipit.VmoveRuns | internal/livelog/render/incipit.go:282-289 | relative motion, where it lands in the viewport, and that it changes no line |
| Incipit.MoveLandsIff | internal/livelog/render/incipit.go:246-259 | the motion to the first changed row lands on it if and only if it is reachable, and then the scroll count is right |
| Incipit.BodyDrawn | internal/livelog/render/incipit.go:260-272 | the repaint loop writes its rows one below the other from the line the cursor is on, changes no other line, and scrolls exactly as far as needed |
| Incipit.RepaintDraws | internal/livelog/render/incipit.go:238-279 | all that a repaint leaves on the terminal, wherever its motion landed |
| Incipit.RepaintShowsIff | internal/livelog/render/incipit.go:238-280 | repainting the changed span shows the new rows if and only if the first changed row is reachable; otherwise some line of the region is wrong |
| Incipit.Painter.Paint | internal/livelog/render/incipit.go:238-280 | painting only the changed span refines a full redraw, scroll count and cursor included, if and only if the first changed row can be reached; then nothing above is touched |
| Incipit.Painter.Tick | internal/livelog/render/incipit.go:156-162 | the same for the open message, and nothing at all if there is none |
| Incipit.Painter.Open | internal/livelog/render/incipit.go:142-194 | the composed rows of the open message are shown at its region if and only if they can be painted there; a message with another LT starts its own region below |
| Incipit.Painter.Resize | internal/livelog/render/incipit.go:164-174 | after a new height the message is shown afresh from the visible top if and only if that line allows it; the scrollback is untouched |
| Incipit.Painter.DropBelow | internal/livelog/render/incipit.go:317-325 | the cursor ends on the line just below the region, and no line changes |
| Incipit.Painter.SealLive | internal/livelog/render/incipit.go:79-84 | sealing the message on screen releases its rows to scrollback unchanged |
| Incipit.Painter.SealUnseen | internal/livelog/render/incipit.go:85-98 | with nothing on screen, the message is printed as blank line, header and rows and nothing else changes; over a live region, its rows are left alone if and only if each printed row is a prefix of the one it lands on, and the painter no longer knows where the cursor is |
| Incipit.HeaderGoesOverLive | internal/livelog/render/incipit.go:85-98 | a live row "reply" under a sealed header "you" reads "youly" |
| Incipit.PrintedOver | internal/livelog/render/incipit.go:85-98 | printed rows go over the lines from the cursor on, line by line |
| Incipit.FreshRegionIff | internal/livelog/render/incipit.go:142-194 | a fresh region is painted right if and only if its first row that is not blank is inside the viewport, or the region begins at its top |
| Incipit.HeaderShownIff | internal/livelog/render/incipit.go:176-194 | a composed message with a header is, if and only if it does not start on the last line of a viewport of two lines or more |
| Incipit.AppendedRowShownIff | internal/livelog/render/incipit.go:238-280 | a row appended to a region is shown by its repaint if and only if the region begins at or above the top of the viewport, or ends above its last line |
| Incipit.GrowthAtBottomOverwrites | internal/livelog/render/incipit.go:246-272 | otherwise the appended row stands in place of the one before it |
| Incipit.BottomLineLosesBlank | internal/livelog/render/incipit.go:246-272 | on the last line of the viewport the header stands in place of the leading blank row |
| Message.Assemble | internal/figaro/turn.go:1189-1220 | every index that the assembly keeps names a tool call |
| Turn.NotedToolsMatchIff | internal/figaro/turn_seal.go:159-191 | the tools noted for a message are its calls, in order, if and only if every call is complete |
| Turn.InterruptedSealIff | internal/figaro/turn_seal.go:92-110 | after an interrupt behind a sealed message every call in the log is answered if and only if every call of that message is complete |
| Turn.IncompleteCallStaysOpen | internal/figaro/turn_seal.go:92-110 | a message whose open call no later message can answer |
| Turn.ClosedTail | internal/figaro/repair.go:13-41 | repair after such a seal settles the log if and only if the calls are all complete or none is |
| Turn.ResultsMatchTools | internal/figaro/turn_seal.go:209-234 | one result for each noted tool, with its id, in order |
| Turn.MergeTurnTools | internal/figaro/turn_seal.go:193-207 | the current calls in their order, each with its recorded state, else with what it was last before |
| Turn.RepairSettles | internal/figaro/repair.go:13-41 | repair answers every open call of the tail, only appends, and leaves a settled log alone |
| Turn.CrashThenRepair | internal/figaro/repair.go:13-41 | whatever prefix of a good log a crash leaves, repair makes it good |
| Turn.Agent.constructor | internal/figaro/agent.go:174-175 | an agent starts from a repaired log |
| Turn.Agent.NoteAssistant | internal/figaro/turn_seal.go:40-46 | the noted tools are again the complete calls of what has streamed |
| Turn.Agent.NoteTool | internal/figaro/turn_seal.go:48-90 | name, status, error, result and output tail of the tool are recorded and put in place of its first mention; no call and no id changes |
| ToolText.CombinedHoldsBoth | internal/figaro/turn_seal.go:61-78 | the recorded result holds all that streamed and all that the tool returned, and neither twice where one holds the other |
| ToolText.BoundedTailIs | internal/figaro/turn_seal.go:236-247 | the kept tail is a suffix, of bounded lines and length |
| Turn.Agent.SealTurn | internal/figaro/turn_seal.go:92-135 | nothing in the log is lost, and it ends settled if and only if it was, or the message at its tail has only complete calls |
| Turn.Agent.RepairInterruptedTail | internal/figaro/repair.go:13-41 | the loop appends what the repair of the log asks for |
| Turn.Agent.Recover | internal/figaro/agent.go:544-556 | after a panic the turn is sealed from memory and repaired: settled if and only if it was, or the calls at the tail are all complete or none is |
| Turn.Agent.AppendPromptEvents | internal/figaro/turn.go:697-710 | each prompt becomes one message, in queue order |
| Turn.Agent.TakeReadyUserPrompts | internal/figaro/inbox.go:63-75 | exactly the leading run of prompts, never past another event |
| Turn.Agent.TakeReadyForks | internal/figaro/inbox.go:99-113 | exactly the leading run of forks |
| Turn.Agent.AppendSteeringPrompts | internal/figaro/turn.go:646-662 | the waiting prompts land after the answers of the round, and a new unit opens exactly if one of them can be rendered |
| Turn.Agent.PrepareProviderRound | internal/figaro/turn.go:664-686 | the queue is drained up to the first control event; each prompt taken is one message, in order, none lost |
| Turn.Agent.AssembleToolResults | internal/figaro/turn.go:804-841 | one result for each call, in order, with the prose its tool returned and whether it failed; an error for a call without an id |
| Turn.Agent.SealAssistant | internal/figaro/turn.go:360-401 | the final message is logged as it came, and the turn stays open exactly to answer its calls |
| Turn.Agent.Stream | internal/figaro/turn.go:328-470 | through any events, interrupts and panics at most the sealed message is added |
| Turn.Agent.RunTools | internal/figaro/turn.go:562-640 | all calls, complete or not, are answered, unless the round was cut short or the process panicked |
| Turn.Agent.DriveOneRound | internal/figaro/turn.go:254-641 | one round, from any provider behaviour: settled, or a panic that can be sealed, or cut short and then settled if and only if the sealed calls are complete; a calm round is never cut short |
| Turn.Agent.RunTurn | internal/figaro/turn.go:127-175 | from any log, a dangling tail is repaired first; over any number of rounds nothing logged is lost, and every call from the old tail on is answered by the next message, unless the turn ended by cutting short a message with an incomplete call: exactly then not |
| Compose.IndexResults | internal/compose/compose.go:258-268 | the last result block of each id |
| Compose.Nodes | internal/compose/compose.go:69-151 | the node list of a turn: id, kind and trimmed text, and for a tool its name, arguments, summary, status, output and timings |
| Compose.OutputIsBounded | internal/compose/compose.go:130-189 | a tool node shows a bounded number of lines, whatever the tool wrote or returned |
| Compose.NodesHaveViewIds | internal/compose/compose.go:69-112 | the shown ids do not depend on what tools have returned |
| Compose.StreamGrowsAtTail | internal/figaro/turn.go:1189-1220 | one stream event only adds ids at the end |
| Compose.ViewGrows | internal/figaro/turn.go:1017-1058 | every step of a turn extends the shown list; sealing, answering and the next round leave it as it is |
| Compose.SealedCopyWins | internal/figaro/turn.go:1017-1058 | composing the in-flight copy again after its seal changes nothing |
| Compose.RunGrows | internal/compose/compose.go:69-112 | over a whole turn no shown node is removed or moved |
| Compose.ViewDistinct | internal/compose/compose.go:37-112 | no two nodes of a turn share an id, if no two calls do |
| Compose.ServerListIsLast | internal/livelog/aria/server.go:77-88 | the server's block list, which never drops anything, is always the last composed list |
| Compose.InterruptedSealShowsIff | internal/figaro/turn_seal.go:111-124 | when what streamed is sealed after an interrupt, the composed list stays as it was shown if and only if no call is half-streamed |
| Compose.PlaceInjective | internal/compose/compose.go:37-39 | printed places tell messages and blocks apart |
| Compose.NamesDistinct | internal/compose/compose.go:37-119 | distinct ids are printed as distinct names, if no call is named like a place |
| Compose.EmitReachesServer | internal/figaro/turn.go:1138-1154 | one emit, however many were skipped before it, leaves the server with exactly the composed list |
| Compose.LiveListReachesServer | internal/figaro/turn.go:1017-1154 | over any run with any emits skipped, the server holds exactly the list that was emitted last, a beginning of what is composed now, if call ids are unique |
| Compose.ServerShowsTurn | internal/figaro/turn.go:1017-1154 | from the start of a turn: right after any emit the server holds the list composed at that moment |
| Interrupted.ShownStaysIff | internal/figaro/turn_seal.go:111-124 | after an interrupted seal the composed list still begins with what was shown if and only if no half-streamed call had been shown |
| Interrupted.InterruptedEmitIff | internal/figaro/turn.go:527-533 | the emit after such a seal leaves the server with the composed list if and only if no half-streamed call had been emitted |
| Interrupted.InterruptedTurnIff | internal/figaro/turn.go:254-543 | the same for a whole turn, its emits skipped or not |
| Interrupted.HalfStreamedCallGoes | internal/figaro/turn_seal.go:159-176 | a call without arguments is shown before the interrupt and gone from the composed list after it |
| PartialJson.StringField | internal/partialjson/partialjson.go:17-59 | the parser object computes the field that the theorems are about, for every input |
| PartialJson.Parser.ParseCompleteString | internal/partialjson/partialjson.go:86-129 | the decoded text and the position behind the closing quote, or nothing |
| PartialJson.Parser.DecodeTolerant | internal/partialjson/partialjson.go:191-259 | as much of a string as its bytes settle |
| PartialJson.Parser.SkipQuoted | internal/partialjson/partialjson.go:277-305 | the end of a string, escapes passed over |
| PartialJson.Parser.SkipNested | internal/partialjson/partialjson.go:307-329 | the end of a container |
| PartialJson.Parser.SkipAny | internal/partialjson/partialjson.go:261-275 | the end of any value |
| PartialJson.Hex4 | internal/partialjson/partialjson.go:169-187 | four hexadecimal digits are a 16-bit unit |
| PartialJson.DecodePair | internal/partialjson/partialjson.go:211-227 | a surrogate pair is one code point and anything unpaired is U+FFFD: never a surrogate |
| PartialJson.TolerantGrows | internal/partialjson/partialjson.go:191-259 | more bytes only extend a tolerantly read string |
| PartialJson.PreviewOnlyGrows | internal/partialjson/partialjson.go:17-59 | for all d and e: a field present in d is present in d followed by e, with a value it is a prefix of |
| PartialJsonUtf8.EncodeValid | internal/partialjson/partialjson.go:211-230 | every rune that is appended is well-formed UTF-8 |
| PartialJsonUtf8.PreviewIsValidUtf8 | internal/partialjson/partialjson.go:191-259 | for valid UTF-8 cut after any byte the value is valid UTF-8 |
| JsonGrammar.StringRead | internal/partialjson/partialjson.go:86-305 | all three string readers stop at the closing quote of a well-formed string and give its text |
| JsonGrammar.NestScanned | internal/partialjson/partialjson.go:307-329 | a well-formed container is scanned exactly to its end, at any depth |
| JsonGrammar.SkipValueExact | internal/partialjson/partialjson.go:261-361 | a well-formed value with a byte behind it is skipped exactly |
| JsonGrammar.KeyRead | internal/partialjson/partialjson.go:28-45 | the head of a member is read as its decoded key and the place of its value |
| JsonGrammar.FieldAgreesWithGrammar | internal/partialjson/partialjson.go:17-59 | on a well-formed object: the text of the first top-level member of that name if it is a string, else nothing; never a nested member |
| Levenshtein.FillRow | internal/cmdkit/router.go:296-310 | one row of the table from the row above |
| Levenshtein.Distance | internal/cmdkit/router.go:283-313 | two rows are enough for the whole recurrence |
| Levenshtein.NoChainIsShorter | internal/cmdkit/router.go:283-313 | no chain of single-rune edits is shorter than the distance |
| Levenshtein.SomeChainIsAsShort | internal/cmdkit/router.go:283-313 | some chain is that short |
| Levenshtein.DistanceIsLeast | internal/cmdkit/router.go:283-313 | the distance is the least number of insertions, deletions and substitutions |
| Levenshtein.Suggest | internal/cmdkit/router.go:264-281 | a visible name at minimum distance if that is below the threshold, else none |
| Governor.ClampTail | internal/toolout/governor.go:47-75 | the last n lines, a trailing partial line counted |
| Governor.TailIsSuffix | internal/toolout/governor.go:45-75 | a suffix with at most n lines, and exactly n when something was cut |
| Governor.ClampTwice | internal/toolout/governor.go:24-30 | clamping after each chunk is clamping once at the end |
| Governor.Governor.Feed | internal/toolout/governor.go:24-30 | one key's tail changes, no other does; an empty chunk changes nothing |
| Governor.TailIsChunkInvariant | internal/toolout/governor.go:24-75 | for every cut into chunks, and other keys in between, a key's tail is the tail of its whole output |
| Paging.ReadBefore | internal/livelog/aria/server.go:167-183 | the messages closest below the cursor, by binary search |
| Paging.PageAfter | internal/livelog/aria/server.go:167-183 | what a backward page holds of the messages above a cursor |
| Paging.CommittedAfter | internal/cli/stream.go:484-492 | how many messages lie above the cursor |
| Paging.FilterCommittedAfter | internal/cli/stream.go:494-503 | exactly these messages, in order |
| Paging.ReadNextPage | internal/cli/stream.go:453-482 | the first messages in (after, watermark], no others, whenever the two are less than 2^63 apart: the 64 rounds then never end the search early |
| Selection.SelectedMessageText | internal/cli/transcript_selection.go:263-292 | fails exactly if an endpoint in the message changed; else the texts of its nodes between the points |
| Selection.FullKeeps | internal/cli/transcript.go:275-283 | skipping messages without nodes loses no text and no endpoint |
| Selection.WalkOn | internal/cli/transcript_selection.go:227-251 | one page extends the stretch that is copied, and the cursor strictly falls |
| Selection.WalkStuck | internal/cli/transcript_selection.go:233-235 | a page without messages means a missing endpoint or a page-long run of messages without nodes |
| Selection.SelectionText | internal/cli/transcript_selection.go:208-261 | unless a read fails: it succeeds if and only if both endpoints are intact and there is no such run, with the join over the whole history, for every page size |
| Selection.AnyPageSize | internal/cli/transcript_selection.go:208-261 | without messages that have no nodes, every two page sizes give the same outcome |
| Selection.PageSizeCanMatter | internal/cli/transcript_selection.go:233-235 | a history where pages of one fail and pages of two succeed |
| Projection.AgreesAfterStore | internal/provider/projection.go:86-95 | storing what was encoded keeps the cache in agreement with the whole log |
| Projection.ProjectIncrementally | internal/provider/projection.go:42-117 | from any watermark and any agreeing cache: the state, chalkboard and watermark of one uncached pass over the whole log, or an error exactly when that pass has one |
| Projection.StaysResumable | internal/provider/projection.go:48-55 | a projection is resumed exactly on a log at least as long, and is then right for its beginning |
| Projection.Calls | internal/provider/projection.go:42-117 | any sequence of calls over cuts of one log ends with the projection of its last cut from scratch |
| Metrics.EstimateMessage | internal/tokens/tokens.go:49-72 | a quarter of the characters, rounded up |
| Metrics.Ceremonial | internal/message/message.go:37-53 | a genesis marker, or a user message that shows nothing |
| Metrics.ContextSize | internal/tokens/tokens.go:12-46 | the last usage plus an estimate of all behind it; exact if and only if nothing is |
| Metrics.MeasuresIsUnique | internal/figaro/agent.go:344-384 | the metrics of a log are determined by the log |
| Metrics.OneMore | internal/figaro/agent.go:293-313 | folding in one more message gives the metrics of the longer log |
| Metrics.CountTail | internal/figaro/agent.go:293-313 | folding in a tail gives the metrics of the whole log |
| Metrics.Meter.RefreshFrom | internal/figaro/agent.go:344-384 | the metrics of the whole log |
| Metrics.Meter.Refresh | internal/figaro/agent.go:279-342 | metrics of an earlier log become those of this one, whether it grew or was cut back below the watermark |
| Metrics.Schedule | internal/figaro/agent.go:279-384 | any schedule of refreshes ends with the metrics of the last log |
| EditDiff.UsableIff | internal/tool/editdiff.go:65-73 | the uniqueness check passes if and only if there is a match and, in the normalised base, every occurrence of the normalised text overlaps the first; a text that normalises to nothing needs an empty base |
| EditDiff.PlainUsableIff | internal/tool/editdiff.go:65-73 | where the normaliser changes nothing: if and only if the text is there, and all its occurrences overlap the first |
| EditDiff.OneEditAcceptedIff | internal/tool/editdiff.go:26-104 | one edit alone is accepted if and only if its text is not empty and passes that check |
| EditDiff.OnceButRefused | internal/tool/editdiff.go:70-73 | "a " is in "a b a" once and is refused as a duplicate |
| EditDiff.OverlapAccepted | internal/tool/editdiff.go:70-73 | "aa" is in "aaa" twice and is accepted |
| EditDiff.TwiceButAccepted | internal/tool/editdiff.go:65-73 | a letter that is there twice, apart, is accepted where normalising composes it with its accent, and only the first is replaced |
| LineEnding.NormalizeStep | internal/tool/linending.go:30-34 | the two replacements are one pass: CR LF and lone CR become LF |
| LineEnding.NormalizeTwice | internal/tool/linending.go:29-34 | normalising is idempotent |
| LineEnding.RoundTripIff | internal/tool/linending.go:13-43 | normalise, then restore the detected ending, is the identity if and only if the file's breaks are all alike |
| LineEnding.MixedEndingsChange | internal/tool/linending.go:13-43 | a file with one CR LF and one LF is changed |
| EditDiff.MatchInBase | internal/tool/editdiff.go:43-80 | each match is a real stretch of the base that is spliced |
| EditDiff.SortByStart | internal/tool/editdiff.go:82 | a sorted permutation of the matches |
| EditDiff.NeighboursSuffice | internal/tool/editdiff.go:83-92 | once sorted, neighbours not overlapping is the same as no two matches overlapping |
| EditDiff.Splice | internal/tool/editdiff.go:94-98 | splicing from the right fills every region and keeps every gap |
| EditDiff.FillIsSubstituted | internal/tool/editdiff.go:94-98 | filling sorted regions is simultaneous substitution |
| EditDiff.ApplyEditsToNormalized | internal/tool/editdiff.go:26-104 | accepted if and only if every old text is found, counted once, and no two overlap; the content is then the simultaneous substitution in the base, or for an empty base the new texts joined |
| EditDiff.OrderDoesNotMatter | internal/tool/editdiff.go:26-104 | permuting the edits changes neither acceptance nor, on a base that is not empty, the content |
| EditDiff.EmptyFileShowsOrder | internal/tool/editdiff.go:82-98 | on an empty file two edits are accepted in either order, and their texts joined in the order of the list differ |
| EditDiff.GapSurvives | internal/tool/editdiff.go:94-98 | bytes outside the matches stay, and stay together |
| EditDiff.PuttingBack | internal/tool/editdiff.go:94-104 | replacing every match by itself is no change |
| EditDiff.EditedInPlace | internal/tool/edit.go:128-137 | substituting in the normalised text and restoring its endings is substituting in the file itself, at the places its bytes came from |
| EditDiff.Edit | internal/tool/edit.go:122-140 | the new file is the matched text with its endings restored and the matches replaced in place; with uniform endings and no fuzzy match that text is the old file, and every other byte is kept |
| FileLock.StepKeepsInv | internal/tool/filelock.go:30-51 | every atomic step keeps: an entry exists while its count is positive, and the count is the number of threads between their two table steps |
| FileLock.Excludes | internal/tool/filelock.go:54-59 | after any interleaving at most one thread is in the critical section per key |
| FileLock.EntryIffUsed | internal/tool/filelock.go:30-51 | an entry exists if and only if some thread uses its key, its count is their number, and all share its mutex |
| FileLock.NoDeadlock | internal/tool/filelock.go:30-51 | while any thread of a key waits, it or another thread of that key can move |
| FileLock.LockTable.Register | internal/tool/filelock.go:30-38 | the table half of acquiring, as one atomic step |
| FileLock.LockTable.Release | internal/tool/filelock.go:45-50 | the table half of releasing, as one atomic step |
| Sanitize.SanitizeForTerminal | internal/render/sanitize.go:51-135 | the scanner computes the text that the theorems are about |
| Sanitize.KeptIsClean | internal/render/sanitize.go:28-50 | whatever comes in, only plain bytes and kept sequences come out |
| Sanitize.UnchangedIffClean | internal/render/sanitize.go:28-50 | a text passes unchanged if and only if it holds nothing else |
| Sanitize.KeptTwice | internal/render/sanitize.go:30 | safe to call repeatedly |
| Sanitize.CleanPrefix | internal/render/sanitize.go:51-135 | a clean beginning does not change how the rest is read |

## Left out

- Sockets, JSON-RPC, OAuth, telemetry, process spawning: input and output without semantics here. A provider is any sequence of bus events that ends in a message or an error; the user's and the process's interference are events of the same sequence.
- The storage library behind the log: the log is an append-only sequence with rising LTs, and appends succeed. What the agent does when an append fails is not modelled, nor is the hand-over of `deferredAppendLog`.
- Time: the emit throttle is a step that may be skipped; tool timings are opaque integers.
- `Server.Restore` and `reconcileAriaServer`, which reuse LTs after a crash.
- The subscriber registry: server methods return the page that every subscriber gets. The metrics section of a page and the client's callbacks are left out; what the callbacks are told is returned.
- Lost or overtaken live frames: the client checks versions only at a close, so the replication theorems take pages in server order. `BoundedRefinesUnbounded` is about any pages.
- An empty node list travels as no list at all, so `Full` means that there are nodes.
- Integers on the wire pass through JSON numbers in the original; here they are exact.
- Node arguments and hashes: a map of opaque values compared as a whole; the clipboard hash is any function of the node.
- Rendering, row widths, autowrap and the terminal's width: a row is one line of characters. `Resume` and `AbandonOpen` of the painter are not modelled.
- ToolText.BoundedTailIs: the original bounds bytes where the model bounds characters.
- Turn.Agent.RunTurn: a call that an earlier turn left open further up stays open; no code goes back there.
- Events that arrive in the inbox while a round drains it; the queue is what it was at the start of each drain.
- Compose.Nodes: how a call is summed up, and what its streaming arguments show of it, are any functions; `Units` is not modelled.
- Compose.ServerShowsTurn: takes call ids to be unique, not empty and not named like a printed place.
- `DiffNodes` and `ApplyOp` of `internal/livedoc/node.go`, which are not on the current wire.
- EditDiff.ApplyEditsToNormalized: the Unicode normaliser of `internal/tool/fuzzy.go` is any idempotent function; error texts, and the order in which edits to an empty file are joined, which the library sort leaves open, are not modelled.
- EditDiff.UsableIff: for a text that normalises to nothing the original counts runes, the model bytes; both counts are at most one for the same bases.
- The text of a generated diff (`GenerateDiff`), and resolving a path to its lock key.
- FileLock.NoDeadlock: says that a step is always enabled; that a waiting thread is served in the end depends on the scheduler.
- Projection.ProjectIncrementally: the encoder is a function, and the patches of an LT do not change once projected.
- Model name, limits and working directory that `refreshMetrics` copies from the chalkboard.
- Completion, help and flag parsing of the command router, listing tables, configuration, update checks: easy or plumbing.
