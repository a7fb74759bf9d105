# Verified models of Snort's detection core

A Dafny project that models the parts of Snort 3 in which several functions have to agree about shared state,
and proves what they promise for every input, every run and every interleaving. Nothing here executes Snort;
`dafny verify dfyconfig.toml` checks the whole project.

**PDF stream decompression** (`PdfFilter`, `PdfGrammar`, `PdfInvariant`, `ByteMachine`, `PdfStreaming`,
`PdfFilterName`, `PdfDocument`, `PdfTokens`, `PdfRecognise`, `PdfStages`, `PdfSession`). The parser is a push-down
machine that eats one byte at a time. Its grammar is written as functions; the parse struct and the session are
classes whose methods update arrays and counters in place and are proved to perform the functions' transitions. A
session keeps a ghost log of all that has happened to it, and its parser is always the one that replaying the log
from the start of the file leads to. Proved: the shape of the stack in every reachable state, exactly which bytes
are rejected, which objects and tokens are recognised, that the way input and output are cut into calls makes no
difference, what precedes every stream of a document that is decompressed and where its filter was read, when
streams are closed, that bytes are conserved, and that the session loop terminates for every input and every
decoder.

**Rule option trees** (`ContentSearch`, `OptionTree`, `EvaluatorLoop`, `QueueExact`, `TreeFacts`, `MemoUse`,
`NoAlertPaths`, `FlowbitPaths`, `OptionLaws`, `EvaluatorLimits`, `PatternRetry`, `TreeTable`). The evaluator has a
memo per node and packet context, retries an option behind its last match, and skips children on a retry. Rules,
contents, pcre and regex patterns, flowbits and other options are told apart as the evaluator does; what code
outside the model answers is a parameter. Proved: on trees of rules and harmless contents the evaluator queues
exactly what plain evaluation queues, however often it is called; three kinds of content that are not harmless do
lose a rule, for every pattern and offset: relative ones with an unsafe jump and room for a second match, relative
negated ones without depth, and negated ones that are not relative but have a relative child; on arbitrary trees,
exactly which evaluation paths queue a rule in the presence of the no-alert flag, exactly which checks may be reused
after a flowbit test has failed, that nothing but checks of the same packet context is reused, when an option is
tried again and which children then, and the range of results; when the retry loop of a pcre or regex ends, and that
the evaluator's results hold exactly for the contexts in which such loops end. The table that shares equal trees is
a class.

**Contexts and offload** (`ContextSwitcher`, `OffloadProtocol`, `OffloadSafety`, `OffloadRuns`, `OffloadLimits`,
`Replacement`). The context pool is a class. The protocol by which a packet thread suspends contexts, hands packets
to regex workers and takes them back is a state machine over its steps, with the thread's open scopes as an explicit
stack; the two loops that wait for workers are methods over that machine. Content replacement is a class and an
in-place array algorithm.

**Packet threads and commands** (`PigManager`, `PigSafety`, `PigDelivery`, `PigLife`, `Ring`, with `Runs` for runs
of step systems). The main thread, the analyzer threads and the reference-counted commands between them are a step
system with every interleaving; the poke ring is a class. Proved: that no thread misuses a pig or a command, which
pigs a broadcast reaches, in which order commands are executed and reaped, and that pokes are conserved.

## What the code does that one might not expect

- A `/Filter` array is accepted with deflate exactly when its last run of Flate names has odd length: three
  cascaded Flate filters count as one (`FilterMeaning`).
- The index into the name `Filter` is not reset when an object opens its dictionary, so `<<ter` passes for the name
  (`StaleNamePasses`).
- An xref block never removes its stack entry, so a document with twelve of them does not parse, whatever streams
  lie between them (`PdfDocument.XrefLimit`), and behind nine of them no object with a filter does
  (`DocumentReadsObject`).
- A token is missed if a part of it comes just before it, as in `FFilter` or `eendobj` (`NameExactly`,
  `EndobjExactly`).
- A retry skips a relative negated content that failed once, although it may succeed further on
  (`NegatedContentIsSkipped`), and a negated content that is not relative hides its relative children from retries
  (`FixedNegatedHidesChild`).
- `set_max_jump_size` can return a jump that leaps over an occurrence, and below a retried option a rule is lost for
  it unless a depth leaves no room for a second match (`MaxJumpIsUnsafe`, `UnsafeJumpLosesRule`). It is computed
  before a pattern without regard to case is put into capitals (`CaseIsOverlooked`).
- A node below which a flowbit test failed is checked again, but not if its own last retry did not match
  (`ReusableExactly`).
- The memo of a node is a signed byte: a node with 128 or more finished children answers something else when asked
  again (`WideNodeForgets`).
- A retried pcre that finds an empty match where it searches finds it again for ever (`PcreSpins`); a retried regex
  takes an offset for a position and can return to where it was (`RegexNeverEnds`, `RegexSpins`).
- `offload` checks for an idle worker before it waits for its flow. Engines opened meanwhile can take the last
  worker, and then `put` finds none (`PutCanFail`); without a wait it always finds one (`OffloadSafety.StepSafe`).

## Model

| member | source | states |
|---|---|---|
| PdfFilter.FilterMeaning | src/decompress/file_decomp_pdf.cc:155-278 | a filter specification is accepted if and only if its brackets are in order, and then selects deflate if and only if its last run of Flate names is odd, raises exactly the alerts of its names, and sets the stream's type if and only if it has a Flate name; a rejected one leaves no type; a session type always comes with the same stream type |
| PdfFilter.AppliedIsParity | src/decompress/file_decomp_pdf.cc:155-182 | processing names one after the other toggles on each Flate name and resets on any other, so the type left is the parity of the last run |
| PdfFilter.AppliedAlerts | src/decompress/file_decomp_pdf.cc:155-182 | names raise one alert for each that is not supported and one for each second Flate in a run, in their order |
| PdfFilter.AppliedStreamType | src/decompress/file_decomp_pdf.cc:155-182 | any Flate name sets the stream's type for good |
| PdfFilter.ScanAppliesNames | src/decompress/file_decomp_pdf.cc:187-278 | the single pass over delimiters processes exactly the names of the specification, in order |
| PdfFilter.ScanChecksBrackets | src/decompress/file_decomp_pdf.cc:206-270 | the pass fails exactly when a bracket opens after another bracket or a name, closes without one open, or is left open |
| PdfFilter.RunFilterSpec | src/decompress/file_decomp_pdf.cc:187-278 | the loop over the buffered specification, with start index and length for the current name, computes the specification function |
| PdfInvariant.InitialIsValid | src/decompress/file_decomp_pdf.cc:280-289 | the initial parser satisfies the invariant |
| PdfInvariant.StepKeeps | src/decompress/file_decomp_pdf.cc:291-819 | every accepted byte keeps the invariant: the stack is ground entries, then at most one object entry, then dictionary entries, as the state and sub-state dictate, and every index is in range for the token, buffer or stack in use |
| PdfInvariant.PopFromDict | src/decompress/file_decomp_pdf.cc:306-329 | a dictionary can always be popped: the stack is not empty, and what is below is an object or another dictionary |
| PdfInvariant.DictKeeps | src/decompress/file_decomp_pdf.cc:336-525 | the invariant through every dictionary sub-state, including the element index carried over on entry |
| PdfInvariant.IndObjKeeps | src/decompress/file_decomp_pdf.cc:544-720 | the invariant through every sub-state of an indirect object |
| PdfInvariant.XrefKeeps | src/decompress/file_decomp_pdf.cc:725-782 | the invariant through an xref block |
| PdfInvariant.StartKeeps | src/decompress/file_decomp_pdf.cc:784-819 | the invariant through the ground state |
| PdfInvariant.CloseStreamKeeps | src/decompress/file_decomp_pdf.cc:982-991 | at a stream both types are deflate, and closing it succeeds and lands in the object, expecting endstream |
| PdfInvariant.RejectsExactly | src/decompress/file_decomp_pdf.cc:336-819 | a byte makes a valid parser fail if and only if a table of states and bytes says so |
| PdfInvariant.LeakedByStep | src/decompress/file_decomp_pdf.cc:725-782 | the end of an xref block is the only step that leaves a stack entry behind, and it leaves one |
| ByteMachine.LocateIsRun | src/decompress/file_decomp_pdf.cc:827-899 | a locating call ends in the state reached by the bytes it consumed, and stops only for a stream, a rejected byte, or lack of input or room |
| ByteMachine.RunKeeps | src/decompress/file_decomp_pdf.cc:827-899 | what every transition keeps, every run keeps |
| ByteMachine.JoinCalls | src/decompress/file_decomp_pdf.cc:827-899 | a call on input that begins with bytes already run over does what a call on the rest does from the state they lead to; so a call that was blocked and the next one do together what one call does |
| ByteMachine.RoomIrrelevant | src/decompress/file_decomp_pdf.cc:827-899 | a call that does not run out of room does not depend on the room given, nor, once it has completed or failed, on the input behind |
| ByteMachine.SplitInvariance | src/decompress/file_decomp_pdf.cc:827-899 | for any schedule of inputs and capacities the phase ends in the state, with the bytes consumed and left, of a single call on all the input |
| ByteMachine.SchedulesAgree | src/decompress/file_decomp_pdf.cc:827-899 | two schedules that deliver the same bytes and leave nothing waiting end alike |
| PdfStreaming.ReachableIsValid | src/decompress/file_decomp_pdf.cc:827-899 | every state of every run is valid |
| PdfStreaming.StepAgrees | src/decompress/file_decomp_pdf.cc:336-525 | a step keeps that a selected type comes from the accepted filter specification in the buffer |
| PdfStreaming.EntersHeader | src/decompress/file_decomp_pdf.cc:544-673 | the only ways into and through the header of a stream, and into the stream |
| PdfTokens.NameExactly | src/decompress/file_decomp_pdf.cc:403-411 | in an active dictionary the name Filter is recognised if and only if no part of it has been matched just before |
| PdfTokens.ReadsStream | src/decompress/file_decomp_pdf.cc:624-643 | `stream` leads to its line end |
| PdfTokens.EndstreamExactly | src/decompress/file_decomp_pdf.cc:675-691 | `endstream` leads to the end of the object if and only if no part of it has been matched just before |
| PdfTokens.EndobjExactly | src/decompress/file_decomp_pdf.cc:693-712 | likewise `endobj` returns to what the object interrupted |
| PdfTokens.EofExactly | src/decompress/file_decomp_pdf.cc:757-776 | likewise `%%EOF` ends an xref block |
| PdfTokens.ReadsComment | src/decompress/file_decomp_pdf.cc:855-863 | a comment at ground level ends with its line and leaves nothing behind |
| PdfTokens.ByteClasses | src/decompress/file_decomp_pdf.cc:66-81 | white space, line ends and delimiters as tables 1 and 2 of ISO 32000-1 have them, delimiters without parentheses, angle brackets, braces and percent |
| PdfDocument.ReplayKeeps | src/decompress/file_decomp_pdf.cc:827-1144 | after any events of a document, bytes and closed streams and alerts, the parser is valid and a selected type comes from an accepted filter |
| PdfDocument.ReplayCopies | src/decompress/file_decomp_pdf.cc:827-899 | copying bytes through is running the byte machine on them |
| PdfDocument.GroundCountsXrefs | src/decompress/file_decomp_pdf.cc:725-819 | over a whole document the ground entries on the stack count the xref blocks seen |
| PdfDocument.XrefLimit | src/decompress/file_decomp_pdf.cc:291-304 | no document has more than eleven xref blocks, and after eleven nothing but white space and comments is accepted at ground level |
| PdfDocument.StreamHeader | src/decompress/file_decomp_pdf.cc:479-518 | at every stream of a document the bytes since the previous one end in the close of a dictionary with an accepted filter that was read behind the name Filter, or a stale `<<ter`, in that dictionary; then a gap, the keyword `stream` and LF or CR LF, as section 7.3.8 of ISO 32000-1 requires |
| PdfDocument.HeaderHistory | src/decompress/file_decomp_pdf.cc:624-673 | inside a header: the closed dictionary, the gap, and exactly the part of the header that the sub-state says |
| PdfDocument.InflatedHasHeader | src/decompress/file_decomp_pdf.cc:936-978 | whatever the decoder is given lies behind such a header |
| PdfDocument.DictHistory | src/decompress/file_decomp_pdf.cc:336-525 | in every document the buffered filter specification is made of bytes that follow, in order, the name in the dictionary at hand, and the index into the name says which part of it has been read |
| PdfDocument.StaleNamePasses | src/decompress/file_decomp_pdf.cc:400-411 | in every document a dictionary that opens with `<<ter` is taken to have had its name read |
| PdfFilterName.DictKnows | src/decompress/file_decomp_pdf.cc:336-525 | every byte of a dictionary keeps this |
| PdfRecognise.ReadsObject | src/decompress/file_decomp_pdf.cc:336-819 | from ground level an object of the shape number, generation, `obj`, line end, `<<`, entries without the name, `/Filter`, an accepted specification, further entries, `>>`, white space, `stream`, LF or CR LF is read up to its stream, with exactly this specification selected, if and only if at most eight entries are on the stack |
| PdfRecognise.DocumentReadsObject | src/decompress/file_decomp_pdf.cc:336-819 | in every document: if and only if at most eight xref blocks have gone before |
| PdfRecognise.OrdinaryIsWellFormed | src/decompress/file_decomp_pdf.cc:123-134 | ordinary objects, with either name of the filter, have this shape |
| PdfRecognise.ReadsName | src/decompress/file_decomp_pdf.cc:395-411 | `/Filter` is recognised in every active dictionary, whatever was read before |
| PdfRecognise.ReadsNested | src/decompress/file_decomp_pdf.cc:370-432 | a nested dictionary is passed over, whatever names it contains |
| PdfRecognise.ReadsObjectEnd | src/decompress/file_decomp_pdf.cc:675-712 | behind its stream an object ends at `endstream` and `endobj`, and the parser is back where it was before |
| PdfRecognise.ReadsXref | src/decompress/file_decomp_pdf.cc:725-819 | an xref block of either kind is read if and only if there is room, and leaves an entry on the stack |
| PdfStages.ClosedExactlyWhenOver | src/decompress/file_decomp_pdf.cc:1052-1144 | in a session's log, alerts aside, a stream is closed exactly where the decoder has just answered other than OK, or could not be initialised |
| PdfStages.DecodesExactlyWhileOk | src/decompress/file_decomp_pdf.cc:1052-1144 | the decoder is used exactly between its initialisation and its first answer other than OK |
| PdfStages.AlertsOnlyWhenOver | src/decompress/file_decomp_pdf.cc:936-1119 | alerts of the decoder are raised only for a stream that is over or has just been given up |
| PdfStages.FailureAlerts | src/decompress/file_decomp_pdf.cc:901-978 | a stream that fails raises an alert at once and another when it has been given up |
| PdfSession.ParseStruct.PushState | src/decompress/file_decomp_pdf.cc:291-304 | pushes the current state onto the array, or fails if it is full |
| PdfSession.ParseStruct.PopState | src/decompress/file_decomp_pdf.cc:306-320 | restores the state on top, or fails if there is none |
| PdfSession.ParseStruct.HandleDict | src/decompress/file_decomp_pdf.cc:336-525 | performs the dictionary transition in place |
| PdfSession.ParseStruct.HandleIndObj | src/decompress/file_decomp_pdf.cc:544-720 | performs the object transition in place |
| PdfSession.ParseStruct.HandleXref | src/decompress/file_decomp_pdf.cc:725-782 | performs the xref transition in place |
| PdfSession.ParseStruct.HandleStart | src/decompress/file_decomp_pdf.cc:784-819 | performs the ground transition in place |
| PdfSession.ParseStruct.Feed | src/decompress/file_decomp_pdf.cc:845-884 | one byte through the struct is one transition of the grammar and keeps the invariant |
| PdfSession.Session.constructor | src/decompress/file_decomp_pdf.cc:1032-1049 | a new session is ready, its parser initial and its log empty |
| PdfSession.Session.Account | src/decompress/file_decomp.h:235-251 | input consumed and output written move together with the 32-bit totals and the log |
| PdfSession.Session.MoveByte | src/decompress/file_decomp.h:235-251 | an accepted byte is moved unchanged from input to output; a rejected one stays |
| PdfSession.Session.LocateStreamBeginning | src/decompress/file_decomp_pdf.cc:827-899 | the loop refines the locating function: same state, same bytes consumed, and the output is those bytes |
| PdfSession.Session.FindStream | src/decompress/file_decomp_pdf.cc:1064-1088 | locating conserves bytes; it fails only when the parser that the bytes consumed have led to rejects the next byte |
| PdfSession.Session.LocateTurn | src/decompress/file_decomp_pdf.cc:1064-1088 | the locating case of the session loop: whenever a stream is found there is a type to decompress, so the case that would spin does not occur |
| PdfSession.Session.DecompStream | src/decompress/file_decomp_pdf.cc:936-978 | a turn of any decoder that keeps zlib's contract conserves bytes and makes progress unless it is blocked or ends; its answer goes into the log, and unless it is an error the parser stays as it is |
| PdfSession.Session.AbandonStream | src/decompress/file_decomp_pdf.cc:1094-1119 | a failed stream is closed, with the alerts in order, and parsing resumes in its object |
| PdfSession.Session.CloseAndResume | src/decompress/file_decomp_pdf.cc:982-991 | closing a stream of a ready session succeeds |
| PdfSession.Session.InitTurn | src/decompress/file_decomp_pdf.cc:1088-1103 | a decoder that is initialised leaves the parser at the stream; a stream without one is given up |
| PdfSession.Session.ProcessTurn | src/decompress/file_decomp_pdf.cc:1104-1135 | a turn answers, or there is less left to do, or a stream is behind us; the session stays with the stream, the parser unchanged, if and only if the decoder answered OK or is blocked |
| PdfSession.Session.Decompress | src/decompress/file_decomp_pdf.cc:1052-1144 | the unbounded loop terminates for every input and every decoder; all bytes are conserved; the log is in order, so that streams are closed exactly when they are over; a blocked session is ready for the next call, its parser is where its log leads and it is decoding exactly if the log says so; a parse failure means that the parser to which the whole log leads rejects the next byte; the hard error means that closing the decoder failed |
| PdfSession.RejectedBy | src/decompress/file_decomp_pdf.cc:827-899 | a locating call fails at the first byte that the state reached by the bytes before it rejects |
| ContentSearch.MatchIsFirst | src/ips_options/ips_content.cc:296-402 | a positive match is the first occurrence at or after the start, and leaves the cursor behind it |
| ContentSearch.UnboundedFinds | src/ips_options/ips_content.cc:296-402 | without a depth a positive search fails only if no occurrence is left |
| ContentSearch.EvalExactly | src/ips_options/ips_content.cc:296-402 | a positive content matches if and only if the pattern occurs within offset and depth; a negated one if and only if it does not and there is a byte to look at |
| ContentSearch.SameMeans | src/ips_options/ips_content.cc:697-703 | without regard to case, bytes are the same exactly if they differ at most as an ASCII letter and its capital |
| ContentSearch.NothingSkipped | src/ips_options/ips_content.cc:366-372 | if no shift shorter than the jump lets the pattern overlap itself, no occurrence is leapt over, in any buffer |
| ContentSearch.UnsafeJumpSkips | src/ips_options/ips_content.cc:366-372 | the converse: any other jump leaps over an occurrence in some buffer |
| ContentSearch.SetMaxJumpSize | src/ips_options/ips_content.cc:85-104 | the loop returns a jump between one and the pattern size at which the pattern does overlap itself |
| ContentSearch.JumpIsSafeExactly | src/ips_options/ips_content.cc:85-104 | the computed jump is safe if and only if the pattern's least overlap with itself, if any, is one of the bytes as written and the pass has nothing matched when it comes to it; then it is the least overlap or the size |
| ContentSearch.NoFalseStart | src/ips_options/ips_content.cc:85-104 | that is so if the first byte does not come again before |
| ContentSearch.CaseIsOverlooked | src/ips_options/ips_content.cc:85-104 | for `abAB` without regard to case it returns 4 although the pattern overlaps itself at 2 |
| ContentSearch.MaxJumpIsUnsafe | src/ips_options/ips_content.cc:85-104 | for `aabaaab` it returns 7 although the pattern overlaps itself at 4 |
| EvaluatorLoop.EvaluateNode | src/detection/detection_options.cc:344-721 | the do-while loop with its early exits computes the recursive evaluation function |
| EvaluatorLoop.EvaluateChildren | src/detection/detection_options.cc:585-668 | the loop over the children, with saved variables and skipped children, computes the children function |
| QueueExact.QueueIsExact | src/detection/detection_options.cc:344-721 | on trees of rules and harmless contents (positive ones, if relative with a safe jump or with a depth that lets them be tried only once; negated ones that are relative with a depth, or not relative and without relative children), any number of evaluations in a packet context queues exactly the rules that plain evaluation, without memo and skipping, queues |
| QueueExact.EvalExact | src/detection/detection_options.cc:374-394 | one evaluation with usable memos below it: the queue gains exactly the plain rules, the memos stay truthful, and a finished result means that nothing further on is missing |
| QueueExact.LoopExact | src/detection/detection_options.cc:415-699 | the same for the retry loop of a positive content entered at any iteration |
| QueueExact.NegatedExact | src/detection/detection_options.cc:415-699 | the same for a negated content, which is tried once |
| QueueExact.ChildrenExact | src/detection/detection_options.cc:585-668 | the same for the children: those skipped on a retry could not have queued anything new |
| QueueExact.UnboundedCovers | src/detection/detection_options.cc:595-640 | an unbounded relative content that failed has nothing to queue from any later position |
| QueueExact.CoveredLoop | src/detection/detection_options.cc:684-699 | if every occurrence from a position on has had its children's rules queued, retrying from there queues nothing |
| TreeFacts.NoAlertKept | src/detection/detection_options.cc:556-563 | evaluation of any tree restores the no-alert flag, and queues nothing while it is set |
| TreeFacts.NoAlertSilences | src/detection/detection_options.cc:678-682 | a node that answers NO_ALERT queues none of the rules below it, whatever its siblings do |
| NoAlertPaths.FlagOnPath | src/detection/detection_options.cc:556-682 | along any path that evaluation takes, through any iterations, the flag is set at its end if and only if it was set at the root or a node on the path answered NO_ALERT, regardless of siblings |
| NoAlertPaths.PathQueues | src/detection/detection_options.cc:474-485 | a matching leaf at the end of an evaluated path that nothing silenced has its rule queued when the whole evaluation ends |
| NoAlertPaths.QueuedHasPath | src/detection/detection_options.cc:344-721 | a rule newly queued by any tree was queued at the end of such a path |
| NoAlertPaths.QueuedExactly | src/detection/detection_options.cc:344-721 | for any tree and any node states: a rule is newly queued if and only if the flag is clear at the root and evaluation takes a path without NO_ALERT to a leaf of the rule that matches |
| NoAlertPaths.TurnSame | src/detection/detection_options.cc:415-699 | the loop's result is that of the loop continued from any of its iterations |
| NoAlertPaths.PassSame | src/detection/detection_options.cc:585-668 | the children's result is that of continuing behind any of them |
| TreeFacts.ResultInRange | src/detection/detection_options.cc:585-668 | without flowbit setters a fresh result is between zero and the number of children, one at most for a rule: over all retries each child adds at most one |
| MemoUse.EvaluateAlike | src/detection/detection_options.cc:374-394 | for any tree: node states in which the same checks may be reused, with the same results, give the same result, the same data and states that again agree, whatever else was left in them; in particular results kept for retries are never read before they are written |
| MemoUse.LoopAlike | src/detection/detection_options.cc:415-699 | the same for the retry loop, in which the children's results agree once the first iteration has written them |
| MemoUse.ChildrenAlike | src/detection/detection_options.cc:585-668 | the same for the children; a pass leaves their results equal, whatever they were before |
| MemoUse.EvaluateStamps | src/detection/detection_options.cc:389-394 | evaluation in one packet context makes no checks for another |
| MemoUse.ContextsDoNotMix | src/detection/detection_options.cc:374-394 | over any sequence of packet contexts, what is queued and returned in a new one is what an unused tree queues and returns |
| MemoUse.NoReuse | src/detection/detection_options.cc:374-394 | for packets that forbid reuse evaluation does not depend on the state of the tree at all |
| FlowbitPaths.MarkedExactly | src/detection/detection_options.cc:546-554 | for any tree: the data are marked as having failed a flowbit test if and only if they were before or evaluation takes a path to a node whose test fails |
| FlowbitPaths.ReusableExactly | src/detection/detection_options.cc:374-394 | a check made anew may be reused if and only if the later context is the same and allows it, and not both a test failed, before or below, and the node's last try was other than NO_MATCH |
| FlowbitPaths.SuspectIsTriedAgain | src/detection/detection_options.cc:710-717 | a node below which a test failed, and that did not end on a try without match, has its option tried again at the next check, in whatever context |
| OptionLaws.QueueGrows | src/detection/detection_options.cc:474-485 | evaluation only adds to the queue, and never a rule that is in it |
| OptionLaws.TriedAgainExactly | src/detection/detection_options.cc:672-699 | an option is tried again if and only if it matched, a branch below it is not done, some child is relative, and it is a content or pattern that allows it; it goes on where it matched |
| OptionLaws.EvaluatedExactly | src/detection/detection_options.cc:585-645 | in the first iteration every child is evaluated, later exactly those that have neither succeeded altogether nor failed in a search that cannot succeed elsewhere |
| OptionLaws.ChildSees | src/detection/detection_options.cc:564-592 | a child starts from the cursor and the variables that its parent's option left, whatever its siblings did |
| OptionLaws.StopsWith | src/detection/detection_options.cc:539-554 | a try without match ends the loop with the result so far; a failed test ends it with zero, and both store the result so far |
| OptionLaws.SetterSets | src/detection/detection_options.cc:701-709 | an option that sets flowbits always lets its children be evaluated, once, and is performed after them if and only if their results add up to one |
| TreeFacts.LoopStores | src/detection/detection_options.cc:415-720 | what is stored is what is returned, cut to a byte, unless a flowbit test failed |
| TreeFacts.MemoAnswers | src/detection/detection_options.cc:374-394 | asked again in the same context a node returns the stored byte, which is the same result for every node with at most 127 children |
| EvaluatorLimits.NegatedContentIsSkipped | src/detection/detection_options.cc:595-640 | every relative negated content without depth, whatever its pattern and offset, has a tree and a payload on which the evaluator queues nothing and plain evaluation a rule |
| EvaluatorLimits.UnsafeJumpLosesRule | src/detection/detection_options.cc:595-640 | so has every positive relative content whose jump is unsafe and whose depth, if any, leaves room for a second match, whatever its pattern and offset |
| EvaluatorLimits.TriedOnceOrRetriable | src/ips_options/ips_content.cc:167-182 | without a positive offset, and unless a negative one outweighs the depth, these are the only two ways: a content has room for a second match, or is tried only once in the payload |
| EvaluatorLimits.FixedNegatedHidesChild | src/detection/detection_options.cc:595-640 | so has every negated content that is not relative, whatever its pattern, offset and depth, once it has a relative child |
| EvaluatorLimits.ComputedJumpLosesRule | src/ips_options/ips_content.cc:85-104 | the jump that configuration computes for `aabaaab` is such a jump |
| EvaluatorLimits.WideNodeForgets | src/detection/detection_options.cc:374-394 | an option over k matching rules answers k, and on the next check the same if and only if k is at most 127 |
| PatternRetry.PcreAdvances | src/ips_options/ips_pcre.cc:550-579 | a match that is not empty moves the cursor forward inside the buffer |
| PatternRetry.PcreEnds | src/ips_options/ips_pcre.cc:550-599 | the retry loop of a pcre with unfinished children ends if and only if no search in it finds an empty match where it starts |
| PatternRetry.PcreSpins | src/ips_options/ips_pcre.cc:550-599 | a pcre whose first search finds an empty match at the start never ends |
| PatternRetry.RegexForwardEnds | src/ips_options/ips_regex.cc:167-199 | the retry loop of a regex with unfinished children ends from every cursor if every match found from a position has an offset behind that position |
| PatternRetry.RegexNeverEnds | src/ips_options/ips_regex.cc:167-199 | it never ends if and only if the starting position lies in a set of positions from each of which the search succeeds with an offset in the set |
| PatternRetry.RegexSpins | src/ips_options/ips_regex.cc:167-199 | two adjacent matches of one byte make it spin |
| PatternRetry.MeasureIfEnds | src/detection/detection_options.cc:684-699 | if answers do not depend on rule variables, as those of pcre and regex do not: a measure that retried matches lower, as the evaluator's results need, exists if and only if every retry loop of every option ends from every cursor |
| PatternRetry.ProgressAdvances | src/detection/detection_options.cc:684-699 | contexts whose options are pcre without empty matches where a search starts and regex with growing offsets have one: what is left of the buffer |
| TreeTable.HashTree | src/detection/detection_options.cc:171-212 | the loop over the children computes the tree hash |
| TreeTable.CompareTrees | src/detection/detection_options.cc:227-252 | the early-exit loop decides whether two trees differ at most in addresses and relative flags |
| TreeTable.EqualMeansErased | src/detection/detection_options.cc:227-252 | trees are equal if and only if they are the same value once addresses and relative flags are erased at every depth |
| TreeTable.EqualReflexive | src/detection/detection_options.cc:227-252 | tree comparison is reflexive |
| TreeTable.EqualSymmetric | src/detection/detection_options.cc:227-252 | tree comparison is symmetric |
| TreeTable.EqualTransitive | src/detection/detection_options.cc:227-252 | tree comparison is transitive |
| TreeTable.EqualHash | src/detection/detection_options.cc:171-252 | equal trees hash equal |
| TreeTable.StoredIsUnique | src/hash/xhash.cc:574-601 | a sound table holds no two equal trees, in whatever rows |
| TreeTable.Table.Find | src/hash/xhash.cc:574-601 | finds the equal tree if and only if one is stored, and moving it to the front changes nothing else |
| TreeTable.Table.AddTree | src/detection/detection_options.cc:328-342 | returns the tree already stored, or links the new one; the table stays sound |
| TreeTable.AddAll | src/detection/detection_options.cc:328-342 | for any sequence of trees each is represented by the first one that differs from it at most in addresses and relative flags; so two share a representative if and only if they differ in nothing else |
| Replacement.Context.AddReplacement | src/detection/detection_engine.cc:214-221 | queues a change at the back |
| Replacement.Context.GetReplacement | src/detection/detection_engine.cc:223-235 | takes the change at the back, or none from an empty queue |
| Replacement.Context.ClearReplacement | src/detection/detection_engine.cc:237-240 | empties the queue |
| Replacement.ApplyChange | src/actions/act_replace.cc:53-65 | overwrites the bytes the change covers inside the payload and no others |
| Replacement.StaysInside | src/actions/act_replace.cc:53-65 | with the length taken in 32 bits, no byte outside the payload is written if and only if the change does not begin behind it |
| Replacement.ModifyPacket | src/actions/act_replace.cc:67-83 | draining the queue leaves each byte as the earliest queued change that covers it, sets the flag if and only if there was a change, and empties the queue |
| Replacement.FirstQueuedWins | src/actions/act_replace.cc:67-83 | of overlapping changes the one queued first decides the byte |
| Replacement.UncoveredStays | src/actions/act_replace.cc:67-83 | bytes that no change covers stay |
| ContextSwitcher.Switcher.constructor | src/detection/context_switcher.cc:46-49 | an empty pool with room for `max` contexts on hold |
| ContextSwitcher.Switcher.Push | src/detection/context_switcher.cc:59-63 | during set-up contexts get the slots one, two and so on |
| ContextSwitcher.ThreadInit | src/main/snort.cc:784-792 | set-up yields a pool whose contexts are all idle with distinct slots |
| ContextSwitcher.Switcher.Pop | src/detection/context_switcher.cc:65-73 | takes the last idle context, or none |
| ContextSwitcher.Switcher.Start | src/detection/context_switcher.cc:75-83 | makes an idle context the only busy one |
| ContextSwitcher.Switcher.Stop | src/detection/context_switcher.cc:85-92 | makes the only busy context idle |
| ContextSwitcher.Switcher.Interrupt | src/detection/context_switcher.cc:119-127 | puts an idle context on top of the busy stack and returns it |
| ContextSwitcher.Switcher.Complete | src/detection/context_switcher.cc:129-141 | returns the top of the busy stack to idle and yields the next one, or none |
| ContextSwitcher.Switcher.Suspend | src/detection/context_switcher.cc:143-156 | moves the top of the busy stack to its own slot, which is empty |
| ContextSwitcher.Switcher.Resume | src/detection/context_switcher.cc:158-165 | moves a context from its slot to the top of the busy stack |
| ContextSwitcher.SuspendResume | src/detection/context_switcher.cc:143-165 | resuming undoes suspending |
| ContextSwitcher.InterruptComplete | src/detection/context_switcher.cc:119-141 | completing undoes interrupting |
| ContextSwitcher.InterruptKeeps | src/detection/context_switcher.cc:119-127 | idle, busy and hold still partition the contexts, each slot holding none but its own |
| ContextSwitcher.CompleteKeeps | src/detection/context_switcher.cc:129-141 | the partition is kept |
| ContextSwitcher.SuspendKeeps | src/detection/context_switcher.cc:143-156 | the slot was empty, the partition is kept, and one context more is on hold |
| ContextSwitcher.ResumeKeeps | src/detection/context_switcher.cc:158-165 | the partition is kept and one context fewer is on hold |
| ContextSwitcher.Switcher.Abort | src/detection/context_switcher.cc:94-117 | every context is idle again: what was idle, then what was on hold by slot, then the busy stack from its top |
| ContextSwitcher.Switcher.CountHeld | src/detection/context_switcher.cc:203-211 | the number of contexts on hold |
| ContextSwitcher.Switcher.OnHold | src/detection/context_switcher.cc:213-222 | true if and only if a context on hold has a packet of the flow |
| OffloadSafety.InnermostIsCurrent | src/detection/detection_engine.cc:77-84 | the destructor's test is right: the current context is the innermost scope's if and only if that scope has not given it away |
| OffloadSafety.EnterKeeps | src/detection/detection_engine.cc:70-75 | opening a scope keeps the invariant |
| OffloadSafety.HandOverKeeps | src/detection/detection_engine.cc:342-370 | suspending a context and handing its packet to a worker meets every assertion and keeps the invariant |
| OffloadSafety.TakeBackKeeps | src/detection/detection_engine.cc:317-340 | taking a packet back meets every assertion and keeps the invariant |
| OffloadSafety.CloseOwned | src/detection/detection_engine.cc:163-174 | closing a scope that still has its context completes it and keeps the invariant |
| OffloadSafety.CloseLeft | src/detection/detection_engine.cc:77-84 | closing a scope whose packet was offloaded changes nothing else |
| OffloadSafety.StepSafe | src/detection/detection_engine.cc:70-445 | from every state of the invariant and every point the thread can be at, no assertion of engine, switcher, flow or offloader fails, given an idle context and, after a wait, an idle worker; and the invariant is kept |
| OffloadRuns.InitialInv | src/main/snort.cc:784-792 | a new thread satisfies the invariant |
| OffloadRuns.RunSafe | src/detection/detection_engine.cc:70-445 | in every run in which contexts and, after a wait, workers have not run out, whatever nests and whenever workers finish, no assertion fails, the invariant holds, and idle workers and packets in flight add up to the number of workers |
| OffloadRuns.OnHoldMeansInFlight | src/detection/detection_engine.cc:317-370 | in every run a slot is held if and only if its request is in flight; a flow is marked, exactly once, if and only if a packet of it is on hold; and no two contexts on hold have packets of the same flow |
| OffloadRuns.OnloadedFlowIsFree | src/detection/detection_engine.cc:302-315 | the two assertions that end `onload(flow)`: no context on hold and no request has a packet of the flow |
| OffloadRuns.SixOffHold | src/detection/context_switcher.h:80-81 | because offload needs more than five idle contexts, six contexts are off hold in every run |
| OffloadRuns.FiveDeepHasContexts | src/detection/detection_engine.cc:163-174 | with at most five busy contexts, `interrupt` and `get_next` find an idle context |
| OffloadRuns.FiveDeepSafe | src/detection/detection_engine.cc:70-445 | in every run with more than six contexts and at most five busy, contexts never run out, so that the only assertion left to a condition is that of `put` after a wait |
| OffloadRuns.ThreadGoesOn | src/detection/detection_engine.cc:70-445 | in every state of the invariant the thread can go on, if need be by waiting for a worker, and every worker can finish |
| OffloadRuns.OncePerPacket | src/detection/detection_engine.cc:77-84 | each release of a context and each `finish_inspect` is of a packet not released or finished before; no other step does either |
| OffloadRuns.Settled | src/detection/detection_engine.cc:282-300 | when nothing is open or in flight, all contexts are idle, no flow is marked, all numbers given out are released and all inspections begun are finished |
| OffloadRuns.ThreadEndsClean | src/main/snort.cc:978-1040 | the same for every run from thread start that ends quiescent: every context taken was completed exactly once |
| OffloadRuns.ScopeRestores | src/detection/detection_engine.cc:70-84 | from the constructor of an engine to its destructor, from the start of an onload to its end, from the start of a wire packet to its stop, whatever happens and nests between, the outer scopes and the busy stack are left as found |
| OffloadRuns.WaitRestores | src/detection/detection_engine.cc:282-315 | so do the loops `onload(flow)` and `idle`, whatever opens inside the packets they take back |
| OffloadRuns.Onload | src/detection/detection_engine.cc:317-340 | an onload inside which nothing opens leaves the busy stack as found, frees the context and removes the oldest request |
| OffloadRuns.OnloadFlow | src/detection/detection_engine.cc:302-315 | the waiting loop, if nothing opens inside the packets it takes back, ends once the workers do, with the flow free and the busy stack as found |
| OffloadRuns.Idle | src/detection/detection_engine.cc:282-300 | the idle loop, if nothing opens inside the packets it takes back, empties the offloader and leaves the thread quiescent |
| OffloadLimits.PutAfterWait | src/detection/detection_engine.cc:342-370 | from the call of `offload` on: after a wait `put` fails if and only if the packets handed over meanwhile equal the workers idle at the call plus the packets taken back; it succeeds if none was handed over |
| OffloadLimits.WorkersOverRun | src/detection/regex_offload.cc:127-163 | over any run, idle workers change by the packets taken back less the packets handed over |
| OffloadLimits.FirstAwayFirstBack | src/detection/regex_offload.cc:127-163 | over any run packets come back in the order in which they were given to workers, and none is lost or made up |
| OffloadLimits.DoneByWorker | src/detection/regex_offload.cc:94-118 | a request is done if and only if its own worker has finished with it |
| OffloadLimits.PutCanFail | src/detection/detection_engine.cc:342-370 | a run of a thread with twelve contexts and two workers in which it does |
| OffloadLimits.SendOne | src/detection/detection_engine.cc:342-370 | opening, inspecting, offloading and closing a rebuilt packet leaves the scopes as they were and takes one worker |
| Ring.Ring.Put | src/helpers/ring.h:105-113 | appends to the queue, or drops the entry when the ring holds two fewer than its size |
| Ring.Ring.Get | src/helpers/ring.h:94-102 | takes the oldest entry, or none |
| PigSafety.InitialInv | src/main.cc:887-905 | a new drove satisfies the invariant, in live and in read mode |
| PigSafety.LazyPigFound | src/main.cc:249-257 | with fewer analyzers than pigs the search finds a free one |
| PigSafety.GetLazyPig | src/main.cc:249-257 | the search loop returns the first free pig |
| PigSafety.StartKeeps | src/main.cc:151-159 | a pig is started only when it has no thread, since the one poke of its construction is the only one that can find it new |
| PigSafety.JoinKeeps | src/main.cc:161-170 | a pig is stopped only when it has a thread to join |
| PigSafety.DropKeeps | src/main.cc:829-832 | removing a drained analyzer keeps the live count and loses no queue entry |
| PigSafety.SendNextKeeps | src/main.cc:189-207 | a turn of a broadcast raises the command's count with its entries and keeps the invariant |
| PigSafety.SendDoneKeeps | src/main.cc:275-290 | a broadcast that reached no pig leaves an orphan, any other leaves a queued command |
| PigSafety.ReapKeeps | src/main.cc:209-223 | reaping an entry lowers the count and deletes the command exactly with its last entry |
| PigSafety.ReapOrphanKeeps | src/main.cc:642-654 | the oldest orphan is deleted, once, and nothing queues it |
| PigSafety.PrepLazyKeeps | src/main.cc:876-882 | prepping after the ring was seen empty keeps the invariant |
| PigSafety.StepSafe | src/main.cc:146-257 | no step of any thread, in any interleaving, starts a pig twice, stops one without a thread, misses a free pig, or touches or deletes a command that is gone; and every step keeps the invariant |
| PigSafety.RunSafe | src/main.cc:839-885 | the same for every run |
| PigSafety.CountIsEntries | src/main.cc:161-244 | in every run a command's count equals the number of work-queue entries that hold it, over all pigs; nothing deleted is queued or orphaned |
| PigSafety.DeletesUnqueued | src/main.cc:209-223 | a step deletes a command only with its last entry or as an orphan without entries, and never makes a deleted one again |
| PigSafety.DeletedForGood | src/main.cc:642-654 | a deleted command stays deleted and unqueued in every run |
| PigSafety.LoopEndsClean | src/main.cc:856-874 | `main_loop` ends only when every analyzer is gone, every thread joined and every command left is an orphan |
| PigDelivery.BroadcastReaches | src/main.cc:275-290 | whatever the analyzer threads do during a broadcast: when it is done, exactly the pigs that had an analyzer and a thread when it began have been given the command, once and behind all their other commands; the command is an orphan if and only if there was none |
| PigDelivery.SendsTo | src/main.cc:189-207 | one turn of a broadcast gives the command to the pig whose turn it is, if that has an analyzer and a thread, and changes no other |
| PigDelivery.OwnReaches | src/main.cc:189-207 | a command for one pig is given to it last, or becomes an orphan if it has no thread |
| PigDelivery.ThreadKeepsHistory | src/main/analyzer.cc:109-143 | analyzer threads move commands along in order and lose none |
| PigDelivery.StepPasses | src/main.cc:161-244 | every step of any thread leaves the commands of every pig, or takes the oldest, or adds the newest |
| PigDelivery.CommandsInOrder | src/main.cc:189-290 | in every run from the start every pig has its commands in the order in which they were made, and none twice |
| PigLife.ReapsAll | src/main.cc:225-244 | whatever the analyzer threads do during reaping: when it is done, every command that was completed when it began has been taken from its pig, oldest first and no other out of turn, and every orphan deleted |
| PigLife.PokesMove | src/main.cc:839-885 | pokes are conserved: those of a pig on their way grow by one exactly when one is made and the ring has room, and shrink by one exactly when one has been handled |
| PigLife.ChangesAreAnnounced | src/main/analyzer.cc:51-55 | an analyzer thread that has changed its state does nothing else before it has poked the main thread |
| PigLife.LifeGoesOn | src/main.cc:146-187 | a pig is prepped, started, joined and dropped in this order, by the main thread alone, and by nothing that happens to other pigs |
| PigLife.MainGoesOn | src/main.cc:839-885 | the main thread can go on from every state until it leaves its loop |
| PigLife.PokeCanBeAnswered | src/main.cc:771-837 | a new analyzer is started and nothing else, one that waits can be given its command, a stopped one can be joined |
| PigLife.ThreadGoesOn | src/main/analyzer.cc:84-143 | an analyzer thread can go on until it has stopped |

## Left out

- PdfRecognise.ReadsObject: entries before the filter contain no nested dictionary and no strings in angle brackets; `ReadsNested` has what a nested dictionary does.
- PDF: the signature search before the parser starts, `Move_N`, the numeric values of object and generation numbers, null pointers, and zlib itself, which is any decoder that makes progress or answers an error; SWF decompression.
- PdfSession.Session.Decompress: opening and closing of the decoder are choices of the decoder, without their memory.
- ContentSearch.MatchIsFirst: offset and depth are constants of the option, not rule variables; the Boyer-Moore search is taken to find the first occurrence.
- QueueExact.QueueIsExact: contents of one buffer and rules; pcre, regex and other options are in the general evaluator and not in this theorem. Contents that are not harmless are excluded, and `EvaluatorLimits` has the rule that they lose, but for the contents on the next line. Only negated contents can be excluded by the fast pattern matcher, as the source has it.
- EvaluatorLimits.UnsafeJumpLosesRule: a relative content with an unsafe jump, a depth, and an offset that is positive or outweighs the depth may be retried by the 32-bit comparison in `retry` without room for a second match; such contents are neither in the theorem nor shown to lose a rule. Configuration's bounds on offset and depth are required.
- EvaluatorLoop.EvaluateNode: there is to be a measure that retried matches of pcre and regex options lower; `MeasureIfEnds` says that there is one exactly if their loops end, without which the source's function does not return. Node state is threaded as a value, one copy per node of the tree, so subtrees shared between rules are not aliased; fast-path latency exits, detection filters, flowbit storage, profiling and the limit on queued matches are not part of the model.
- TreeTable.AddAll: option data are identities; the table's memory limits and its global list are not part of the model.
- Replacement.ModifyPacket: requires changes to begin inside the payload; `StaysInside` says that any other writes outside it.
- ContextSwitcher: context data stored in a context; slot numbers stand for contexts.
- OffloadSafety.StepSafe: `interrupt` with no idle context and `put` after a wait with no idle worker are conditions here; `FiveDeepSafe` and `PutAfterWait` say when they hold.
- OffloadProtocol: what inspectors and the fast-pattern search compute, latency, and the choice between offload and local detection by size, which is free; rebuilt packets are inspected only inside another scope or between start and stop, as all callers do.
- OffloadRuns.OnloadFlow: a worker that is waited for does finish, and nothing opens inside the packets taken back, since otherwise the loop need not end; `WaitRestores` has what holds if something does.
- OffloadRuns.Idle: the same.
- OffloadRuns.Onload: the same; `ScopeRestores` has what holds otherwise.
- PigSafety.StepSafe: privilege changes decide freely between waiting, queueing and broadcasting, so nothing is claimed about when privileges are dropped or that an analyzer gets one START and one RUN; a poke that the full ring drops delays its pig, and no progress is claimed.
- PigManager: signals, the command shell and its wrapper around commands, idle hooks, configuration swaps and the trough of packet sources, which is any supply; the main thread's loops are steps of the system and not methods.
- Ring: the volatile indices are read and written under a lock in every use that is modelled.
- OpenCL search, codecs, connectors, packet acquisition, logging, react and reject actions, module registration: input and output or plug-in plumbing.
