# Verified models of the JSON stack and the agent loop

This project models, in Dafny, the parts of the repository whose correctness ranges over all inputs,
all ways of cutting a text into fragments, and all interleavings of a run, and proves what each of
them keeps.

**Text.** `Units` is text as UTF-16 code units. `JsonGrammar` is the syntax tree of RFC 8259 (section 2
structure and whitespace, 3 values, 4 objects, 5 arrays, 6 numbers, 7 strings) with all its whitespace and
spellings, and its printing; `JsonValue` is what a tree denotes. Everything said about "a JSON text"
quantifies over these trees.

**The classifier.** `JsonScanner` is the pushdown machine behind `classifyJsonPrefix`, one unit at a time;
`JsonReading` and `JsonSoundness` tie its accepting runs to the grammar in both directions; `JsonClassifier`
gives every live state a completing suffix and holds the loops of the source, proved equal to the machine.

**The tolerant parser.** `JsonLexer` specifies each reader of the lexer on the text from the cursor on,
`RelaxedJson` the recursive descent; `LexerCursor` and `RelaxedParser` are the classes of the source, whose
methods move a cursor and fill containers, proved against them. `RelaxedRoundTrip` and `RelaxedTruncation`
relate both modes to the grammar; `JsonParse` is `JSON.parse` with its infinities and shows the grammar
unambiguous, `ParseEntry` the wrappers around it, `NumberRange` the numbers on which they part, `RepairJson`
the text-level repair, `StreamingThrottle` the gate on re-parsing.

**Arriving documents.** `IncomingScan` and `IncomingSelect` follow a path into a document that is still
arriving, from scratch and from a kept index; `IncomingCursor` is the scan as loops over the cursor.
`BlankStability`, `StringStability`, `SingleQuoted` and `IncomingStability` say what more input cannot change;
`IncomingResume` and `IncomingRuns` prove the kept index transparent where it is, `IncomingStops` and `IncomingExact`
that it is not anywhere else, `IncomingEdges` exactly which verdicts last; `IncomingDoc` is the stateful side;
`IncomingFinal` compares a pull with the final parse.

**The agent loop.** `ToolBatch` (one batch of tool calls), `SteeringQueue` (the queues, their waiters, and the
watcher beside a batch) and `AgentLoop` (`runLoopBody`) are state machines whose environment decides when
tools end, what the model answers and when messages, aborts and deadlines arrive. `BatchOrder` shows that a
batch gives the loop what the loop relies on.

**Smaller pieces.** `AppendOnlyContext` (the append-only message log), `SelfTime` (the interval sweep), `PathTree`
(the folded path tree).

## What turned out not to hold

- Array resume is not transparent after a pull that stops right after an element. `selectIndex` records an element
  before its separator is seen, while the frontier moves only at the loop's head
  (`packages/agent-sys/src/incoming-json.ts:359`, `:375-378`). `IncomingExact.PullExact` is the exact condition for
  one pull and all probes after it, `IncomingExact.TransparentExactly` for whole runs, and
  `IncomingExact.WrongForever` says that nothing the feed does later mends it. The retry inside a single pull
  suffices: asked for element 1 of an array whose buffer ends with element 0, an object or an array, it waits, and
  with the next fragment it returns element 0 (`IncomingExact.RetryGoesWrong`).
- `JSON.parse` and the tolerant parser disagree on the JSON texts in which a number overflows, and on no others
  (`ParseEntry.RepairExactly`): on `1e400` the one gives an infinity, the other throws (`ParseEntry.HugeOverflows`).
  For the same reason a streamed number can show as an infinity before its exponent has arrived
  (`ParseEntry.LongNumberStreams`); `ParseEntry.StreamingExactly` says that this is the only way in which a snapshot
  fails to approximate the final value.
- A leak retry can end a run with its turn open and a queued message unanswered. The `continue` after an
  `abort_retry` (`packages/agent-core/src/agent-loop.ts:1298-1299`) re-tests the inner loop, whose messages have
  been taken already. `AgentLoop.LeakLeavesTurnOpen` and `AgentLoop.StopBoundaryReached` give the run;
  `AgentLoop.OpenTurnExactly` says which runs end so.
- A check of the steering watcher that throws ends the watcher (`packages/agent-core/src/agent-loop.ts:2821-2825`),
  and only then can a queued steer escape it (`SteeringQueue.SteerUnwatchedExactly`). The steer is then noticed by
  the poll after another call, if one ends while it is queued (`SteeringQueue.PollNotices`,
  `packages/agent-core/src/agent-loop.ts:2777`), and otherwise at the end of the batch;
  `SteeringQueue.ThrownCheckMissesSteer` is such a run.
- A verdict on an open buffer can be withdrawn by more input, in two cases and no others
  (`IncomingEdges.VerdictsExactly`): the path leads into a value of which only a slash has arrived, which may yet begin a
  comment, or the scan read past an apostrophe whose lookahead was undecided for the same reason
  (`packages/agent-sys/src/json-lexer.ts:310-318`). Such a verdict falls with the next slash.
  `IncomingEdges.LoneSlashWithdrawn` and `IncomingEdges.ApostropheWithdrawn` are the two cases.
- `stableLen` is documented as the length of what more input cannot change
  (`packages/agent-sys/src/json-lexer.ts:147-160`), and the chunks of a string as a leading part of it
  (`packages/agent-sys/src/incoming-json.ts:687-691`). Both hold of double-quoted strings
  (`StringStability.StableUnitsStay`, `IncomingDoc.ChunksJoinToText`). For single-quoted ones both hold unless the token
  has closed past such an apostrophe (`SingleQuoted.StableExactly`, `IncomingDoc.ChunksExactly`):
  `IncomingDoc.ApostropheHandedOut` is a chunk that is taken back. Apart from that, a call for the next chunk of a
  single-quoted string can fail because `stableLen` has dropped: when the token had closed at the buffer's edge, more
  input has opened it again, and an escape in it is still cut (`SingleQuoted.DropsExactly`,
  `IncomingDoc.CallFailsExactly`); `IncomingDoc.CutEscapeFails` is such a run.
- A bareword that names a property every JavaScript object inherits, such as `constructor`, is not recovered: the table
  of atoms is an object literal, in which the lookup finds it (`packages/agent-sys/src/json-lexer.ts:82-88`, `:404`).
  The comment above the method (`:375-380`) speaks of non-finite atoms only. `JsonLexer.NameRecovered` says which
  names are recovered, `JsonLexer.ConstructorRefused` gives the case.
- A log entry goes stale when a message is replaced in the list by one with the same digest and then rewritten
  in place (`AppendOnlyContext.ReplacedThenEdited`); `AppendOnlyContext.MirrorsExactly` is the exact condition.
- The comment at `packages/agent-sys/src/json-parse.ts:345-348` promises O(N log N) total work for the
  throttle; the work is in fact linear (`StreamingThrottle.LinearWork`).

## Model

| member | source | states |
|---|---|---|
| JsonScanner.StepCoherent | packages/agent-sys/src/json-parse.ts:379-404 | every step of the machine keeps mode and container stack in agreement |
| JsonReading.ValueRead | packages/agent-sys/src/json-parse.ts:406-575 | the machine reads every printed value of the grammar and stands after it, whatever follows |
| JsonReading.ElementsRead | packages/agent-sys/src/json-parse.ts:406-575 | likewise the elements of an array up to its bracket |
| JsonReading.MembersRead | packages/agent-sys/src/json-parse.ts:406-575 | likewise the members of an object up to its brace |
| JsonSoundness.TakeValue | packages/agent-sys/src/json-parse.ts:406-575 | whatever the machine reads as a value is a printed value of the grammar |
| JsonClassifier.CompleteIffJsonText | packages/agent-sys/src/json-parse.ts:406-575 | accepted exactly the JSON texts of RFC 8259 |
| JsonClassifier.CompletionCompletes | packages/agent-sys/src/json-parse.ts:379-404 | every coherent state and stack has a suffix that completes the text |
| JsonClassifier.Completable | packages/agent-sys/src/json-parse.ts:406-575 | a text that is not refused can be completed |
| JsonClassifier.ClassifierExact | packages/agent-sys/src/json-parse.ts:368-378 | `complete` iff a JSON text, `prefix` iff not but some suffix makes it one, `invalid` iff none does |
| JsonClassifier.ClassifyJsonPrefix | packages/agent-sys/src/json-parse.ts:406-575 | the loops over index and stack return that verdict |
| JsonClassifier.ScanString | packages/agent-sys/src/json-parse.ts:406-575 | the string loop stops where the machine stands after the string, or settles the verdict |
| JsonClassifier.ScanNumber | packages/agent-sys/src/json-parse.ts:406-575 | likewise the number loop |
| JsonClassifier.ScanKeyword | packages/agent-sys/src/json-parse.ts:406-575 | likewise the keyword loop |
| LexerCursor.SkipFrom | packages/agent-sys/src/json-lexer.ts:113-135 | the loop over whitespace and comments stops at the first significant unit |
| LexerCursor.StringLoop | packages/agent-sys/src/json-lexer.ts:207-303 | value, stable length and end of a string token, in every mode, are those of the specification |
| LexerCursor.Lexer.String | packages/agent-sys/src/json-lexer.ts:207-303 | moves past the token; throws exactly on an unterminated string in strict mode |
| LexerCursor.EscapeAt | packages/agent-sys/src/json-lexer.ts:240-296 | what an escape decodes to, its length and whether more input may change it |
| LexerCursor.Hex4At | packages/agent-sys/src/json-lexer.ts:97-106 | the value of four hex digits, -1 otherwise |
| LexerCursor.LookPastQuote | packages/agent-sys/src/json-lexer.ts:310-318 | whether a candidate quote closes, is inner, or is undecided |
| LexerCursor.Lexer.Number | packages/agent-sys/src/json-lexer.ts:326-337 | consumes the maximal run and returns its finite value, else throws or nothing |
| LexerCursor.Lexer.Keyword | packages/agent-sys/src/json-lexer.ts:344-353 | the first keyword at the cursor with a boundary after it; moves only on success |
| LexerCursor.Lexer.UnquotedKey | packages/agent-sys/src/json-lexer.ts:356-367 | the key up to its delimiter |
| LexerCursor.Lexer.Bareword | packages/agent-sys/src/json-lexer.ts:383-407 | the trimmed word, or nothing or an exception with the cursor unmoved |
| StringStability.EscapeStable | packages/agent-sys/src/json-lexer.ts:244-296 | an escape not marked unstable reads the same however the text goes on |
| StringStability.ClosedTokenFinal | packages/agent-sys/src/json-lexer.ts:207-303 | a closed double-quoted token is never reopened or re-read |
| StringStability.StableUnitsStay | packages/agent-sys/src/json-lexer.ts:147-160 | more input never changes the first `stableLen` units of a double-quoted token and never lowers `stableLen` |
| SingleQuoted.StableExactly | packages/agent-sys/src/json-lexer.ts:147-160 | of a token of either kind more input never changes them iff the token has not closed past an apostrophe with an undecided lookahead |
| SingleQuoted.DropsExactly | packages/agent-sys/src/json-lexer.ts:207-303 | otherwise more input lowers `stableLen` iff the token had closed, is open again and an escape in it is still cut |
| SingleQuoted.BodyEdge | packages/agent-sys/src/json-lexer.ts:207-318 | a single-quoted token followed by significant text is final, or closes earlier, before nothing, once another slash has come |
| JsonLexer.NameRecovered | packages/agent-sys/src/json-lexer.ts:383-407 | a name before a delimiter is recovered as itself unless the table lookup finds it |
| JsonLexer.ConstructorRefused | packages/agent-sys/src/json-lexer.ts:404 | `constructor` is not listed and is refused |
| JsonValue.NumberTokenValue | packages/agent-sys/src/json-lexer.ts:326-337 | `Number` of an RFC 8259 number token is its mathematical value, when a finite double |
| RelaxedJson.PartialNeverThrows | packages/agent-sys/src/json-parse.ts:152-286 | partial parsing ends without an exception on every text |
| RelaxedParser.Parser.Parse | packages/agent-sys/src/json-parse.ts:152-166 | the mutable parser builds what the specification says, or throws when it does |
| RelaxedParser.Parser.ReadValue | packages/agent-sys/src/json-parse.ts:168-188 | likewise for a value, with the cursor after it |
| RelaxedParser.Parser.ReadObject | packages/agent-sys/src/json-parse.ts:190-240 | likewise for the object loop and its assignments |
| RelaxedParser.Parser.ReadArray | packages/agent-sys/src/json-parse.ts:242-277 | likewise for the array loop |
| RelaxedParser.Parser.ReadKey | packages/agent-sys/src/json-parse.ts:279-286 | likewise for a key |
| RelaxedRoundTrip.ValueParsed | packages/agent-sys/src/json-parse.ts:168-188 | a printed value parses to what it denotes in both modes, whatever whitespace it has |
| RelaxedRoundTrip.StrictRoundTrip | packages/agent-sys/src/json-parse.ts:143-166 | strict parsing of a JSON text gives its value, or throws iff a number is no finite double |
| RelaxedTruncation.StrictPrefixRejected | packages/agent-sys/src/json-parse.ts:138-142 | strict parsing rejects every text cut before the last bracket of an object or array |
| RelaxedTruncation.PartialApproximates | packages/agent-sys/src/json-parse.ts:143-286 | on every leading part of a duplicate-free JSON text the result approximates the final value |
| JsonParse.SameText | packages/agent-sys/src/json-parse.ts:296-302 | the grammar is unambiguous, so `JSON.parse` is a function of the text, infinities and all |
| JsonParse.FiniteDecode | packages/agent-sys/src/json-parse.ts:296-302 | without overflow `JSON.parse` and the tolerant parser read a tree alike |
| NumberRange.HugeIsNotFinite | packages/agent-sys/src/json-lexer.ts:334 | `1e400` is a JSON number that fails the finite guard |
| NumberRange.LongThenScaled | packages/agent-sys/src/json-lexer.ts:334 | a JSON number that passes the guard while a leading part of it fails |
| ParseEntry.ParsesJsonTexts | packages/agent-sys/src/json-parse.ts:296-302 | `JSON.parse` succeeds on exactly the JSON texts |
| ParseEntry.FastPathAgrees | packages/agent-sys/src/json-parse.ts:296-302 | on JSON texts without overflow the tolerant parser gives the same, in both modes |
| ParseEntry.RepairExactly | packages/agent-sys/src/json-parse.ts:289-302 | the repairing parse is the tolerant parse iff the text is no JSON text with a number that overflows |
| ParseEntry.HugeOverflows | packages/agent-sys/src/json-parse.ts:296-302 | on `1e400` one throws and the other gives an infinity |
| ParseEntry.StreamingExactly | packages/agent-sys/src/json-parse.ts:304-321 | a streamed snapshot is empty or approximates the final value, iff what has arrived is no number that overflows; once the value has arrived it is the final value |
| ParseEntry.LongNumberStreams | packages/agent-sys/src/json-parse.ts:309-321 | a finite number that is streamed as an infinity on the way |
| StreamingThrottle.TotalWork | packages/agent-sys/src/json-parse.ts:356-366 | with a floor of at least 31 the parsed lengths sum to at most 33 times the last one |
| StreamingThrottle.LinearWork | packages/agent-sys/src/json-parse.ts:328-366 | with the default floor, at most 33 N units are parsed for a buffer that grows to N |
| StreamingThrottle.TailIsShort | packages/agent-sys/src/json-parse.ts:361-365 | the unparsed tail is always shorter than max(floor, len/32) |
| RepairJson.Repair | packages/agent-sys/src/json-parse.ts:46-129 | the loop with its emit list returns the repaired text |
| RepairJson.EscapeSize | packages/agent-sys/src/json-parse.ts:80-115 | which escapes are left alone and which lose their backslash to a doubled one |
| RepairJson.RepairIsIdempotent | packages/agent-sys/src/json-parse.ts:40-129 | repairing twice is repairing once |
| RepairJson.JsonTextStays | packages/agent-sys/src/json-parse.ts:40-45 | a JSON text is returned unchanged |
| RepairJson.StringMeaningKept | packages/agent-sys/src/json-parse.ts:46-129 | a terminated string without an escaped apostrophe becomes an RFC 8259 string that denotes what the strict lexer reads |
| IncomingStability.ValueGrows | packages/agent-sys/src/incoming-json.ts:394-488 | a value scanned as complete is scanned the same, to the same end, when more text arrives |
| IncomingStability.MemberGrows | packages/agent-sys/src/incoming-json.ts:283-341 | likewise a member's key and the place of its value |
| IncomingStability.ItemsGrows | packages/agent-sys/src/incoming-json.ts:446-488 | likewise the end of a container |
| IncomingCursor.ScanValueAt | packages/agent-sys/src/incoming-json.ts:394-437 | the scan over the cursor finds the specified shape and end |
| IncomingCursor.ScanContainerAt | packages/agent-sys/src/incoming-json.ts:446-488 | likewise for a container and its depth limit |
| IncomingCursor.ScalarCompleteAt | packages/agent-sys/src/incoming-json.ts:440-444 | when a scalar counts as complete |
| IncomingResume.KeptValueAgrees | packages/agent-sys/src/incoming-json.ts:252-281 | through a right index a probe of any path gives the verdict of a fresh scan; the index stays right unless the probe stopped right after an element |
| IncomingResume.KnownKeyAgrees | packages/agent-sys/src/incoming-json.ts:269-341 | likewise when the key is already recorded |
| IncomingResume.NewKeyAgrees | packages/agent-sys/src/incoming-json.ts:283-341 | likewise when the scan for a key goes on from the frontier |
| IncomingResume.KnownElementAgrees | packages/agent-sys/src/incoming-json.ts:273-275 | likewise when the element is already recorded |
| IncomingResume.NewElementAgrees | packages/agent-sys/src/incoming-json.ts:347-391 | likewise when the scan for an element goes on from the frontier |
| IncomingResume.KeysNeverStop | packages/agent-sys/src/incoming-json.ts:283-341 | on a path of object keys no probe stops so |
| IncomingRuns.PlaceGrows | packages/agent-sys/src/incoming-json.ts:347-391 | a place in an array keeps its number when more text arrives |
| IncomingRuns.IndexGrows | packages/agent-sys/src/incoming-json.ts:170-184 | an index that is right for a buffer is right for every longer one |
| IncomingRuns.VerdictsStand | packages/agent-sys/src/incoming-json.ts:214-237 | on a steady buffer no complete, missing or mismatch verdict is contradicted by more input |
| IncomingRuns.PullAgrees | packages/agent-sys/src/incoming-json.ts:232-237 | one pull through the kept index is transparent |
| IncomingRuns.ResumeTransparent | packages/agent-sys/src/incoming-json.ts:187-237 | so is every pull of every run on steady buffers, on all paths, while only the last pull stops right after an element |
| IncomingRuns.StrictJsonTransparent | packages/agent-sys/src/incoming-json.ts:187-341 | for every cutting of a JSON text and every order of object-key pulls, each pull gives the verdict of a fresh scan |
| IncomingRuns.StrictJsonMixedPaths | packages/agent-sys/src/incoming-json.ts:187-391 | likewise on paths of keys and indices, while only the last pull stops right after an element |
| IncomingRuns.ArrayResumeExact | packages/agent-sys/src/incoming-json.ts:347-391 | array resume is right iff the recorded elements are those before the frontier |
| IncomingRuns.ArrayResumeCountsTwice | packages/agent-sys/src/incoming-json.ts:359-378 | a concrete text and two pulls on which it is wrong |
| IncomingStops.StopMisleads | packages/agent-sys/src/incoming-json.ts:252-391 | a pull that stops right after an element leaves an index that misleads along a certain path |
| IncomingStops.MisledIsWrong | packages/agent-sys/src/incoming-json.ts:252-391 | a probe on that path is answered with a complete value, and not with what a fresh scan finds |
| IncomingStops.MisledGrows | packages/agent-sys/src/incoming-json.ts:252-391 | and stays so while text arrives |
| IncomingExact.PullExact | packages/agent-sys/src/incoming-json.ts:232-237 | after a pull through a right index every pull shows what a fresh scan shows iff it did not stop right after an element |
| IncomingExact.WrongForever | packages/agent-sys/src/incoming-json.ts:187-237 | if it did, a pull returns a wrong complete value, however the feed goes on |
| IncomingExact.TransparentExactly | packages/agent-sys/src/incoming-json.ts:187-391 | a run on steady buffers can be broken off anywhere, fed on and probed anywhere with the fresh verdict iff none of its pulls stops so |
| IncomingExact.RetryGoesWrong | packages/agent-sys/src/incoming-json.ts:214-230 | the retry of one pull returns element 0, complete, for element 1 |
| IncomingEdges.VerdictsExactly | packages/agent-sys/src/incoming-json.ts:214-391 | a verdict on any buffer is contradicted by no continuation iff the probe met no lone slash where a value should be and no complete token read past an undecided apostrophe; iff it survives one more slash |
| IncomingEdges.ValueEdge | packages/agent-sys/src/incoming-json.ts:394-488 | a complete value is final, or one more slash reopens it, according to its tokens |
| IncomingEdges.LoneSlashWithdrawn | packages/agent-sys/src/incoming-json.ts:260-266 | on a buffer that is significant only in a last slash the empty path has no verdict, and every other path a mismatch that does not last |
| IncomingEdges.ApostropheWithdrawn | packages/agent-sys/src/json-lexer.ts:310-318 | a complete string with a separator after it that does not last |
| IncomingDoc.Shared.Push | packages/agent-sys/src/incoming-json.ts:513-517 | appends while the feed is open, throws and changes nothing after |
| IncomingDoc.Shared.Finish | packages/agent-sys/src/incoming-json.ts:520-533 | closes once |
| IncomingDoc.Shared.Abort | packages/agent-sys/src/incoming-json.ts:525-533 | closes once |
| IncomingDoc.Shared.Locate | packages/agent-sys/src/incoming-json.ts:232-237 | the probe on the kept index, transparent while the index is right |
| IncomingDoc.IncomingString.Next | packages/agent-sys/src/incoming-json.ts:720-731 | one pass of `nextChunk` over what the document answers: a chunk, the end, a wait, or the error |
| IncomingDoc.ChunksExactly | packages/agent-sys/src/incoming-json.ts:687-731 | at every point of a run the chunks joined are a leading part of the decoded string whatever arrives, and all of it once done, iff no call on the open feed finds the token closed past an undecided apostrophe |
| IncomingDoc.ChunksJoinToText | packages/agent-sys/src/incoming-json.ts:687-761 | on double-quoted strings they always are, and no call fails, however escapes are split |
| IncomingDoc.CallFailsExactly | packages/agent-sys/src/incoming-json.ts:720-770 | in every reading whose calls were such, the next call fails iff that has happened since units were last handed out |
| IncomingDoc.CutEscapeFails | packages/agent-sys/src/incoming-json.ts:763-770 | a run in which a call fails so |
| IncomingDoc.ApostropheHandedOut | packages/agent-sys/src/incoming-json.ts:720-731 | a chunk that the next slash takes back |
| IncomingDoc.ClosedStringDrains | packages/agent-sys/src/incoming-json.ts:720-731 | after the closing quote at most two calls finish the string |
| IncomingFinal.ValueScanned | packages/agent-sys/src/incoming-json.ts:394-488 | a printed value within the depth limit is located whole, with its shape |
| IncomingFinal.FinishedPull | packages/agent-sys/src/incoming-json.ts:232-391 | on a finished JSON text a pull leads to the text of the subtree at its path, is missing or a mismatch |
| IncomingFinal.TreesAgree | packages/agent-sys/src/json-parse.ts:190-277 | the final parser's tree has the subtree's value at every path |
| IncomingFinal.PullIsFinalParse | packages/agent-sys/src/incoming-json.ts:593-609 | a finished pull materializes to exactly what the final parse has at the path, and fails iff it has nothing there |
| ToolBatch.Schedule | packages/agent-core/src/agent-loop.ts:2838-2868 | an exclusive call waits for the last exclusive call and every shared one since, a shared call for the last exclusive one only |
| ToolBatch.ExclusionInEveryRun | packages/agent-core/src/agent-loop.ts:2838-2868 | of two calls of which one is exclusive, the later begins only after the earlier has settled, in every interleaving |
| ToolBatch.StepOk | packages/agent-core/src/agent-loop.ts:2519-2779 | every step keeps phases, emitted events and results of all calls in agreement |
| ToolBatch.SomeCallCanMove | packages/agent-core/src/agent-loop.ts:2838-2874 | while a call is unsettled some unsettled call can go on, a parked one once the gate is open |
| ToolBatch.CallStepsRunOut | packages/agent-core/src/agent-loop.ts:2560-2779 | each step of a call uses up one of boundedly many |
| ToolBatch.OneResultPerCall | packages/agent-core/src/agent-loop.ts:2879-2891 | after the sweep each call has one start, one end and one result, in this order |
| ToolBatch.EveryCallAnswered | packages/agent-core/src/agent-loop.ts:2519-2891 | in every run: a completed call keeps its own result, and a non-interruptible call is passed over only on external abort or after a poll threw |
| BatchOrder.BatchAnswersEachOnce | packages/agent-core/src/agent-loop.ts:2394-2891 | the results of a settled batch are those of each call once |
| SteeringQueue.Queues.Steer | packages/agent-core/src/agent.ts:995-998 | appends and resolves every waiter |
| SteeringQueue.Queues.ReplaceQueues | packages/agent-core/src/agent.ts:973-977 | replaces both queues and resolves every waiter |
| SteeringQueue.Queues.ClearSteering | packages/agent-core/src/agent.ts:1008-1011 | empties the queue and resolves every waiter |
| SteeringQueue.Queues.PopLastSteer | packages/agent-core/src/agent.ts:1087-1089 | takes the newest message; no waiter is owed anything |
| SteeringQueue.Queues.DequeueSteering | packages/agent-core/src/agent.ts:1055-1067 | what is taken and what stays make up the queue |
| SteeringQueue.Queues.DequeueFollowUp | packages/agent-core/src/agent.ts:1069-1081 | likewise |
| SteeringQueue.Queues.WaitForSteering | packages/agent-core/src/agent.ts:1117-1127 | resolved at once iff something is queued or the signal is aborted, else registered |
| SteeringQueue.Queues.Notify | packages/agent-core/src/agent.ts:1129-1132 | resolves every waiter |
| SteeringQueue.Queues.HasSteering | packages/agent-core/src/agent.ts:1494-1514 | whose message the next poll brings |
| SteeringQueue.DeliveredInOrder | packages/agent-core/src/agent.ts:1055-1067 | whatever the modes, every message is delivered or still queued, once and in order |
| SteeringQueue.SteerUnwatchedExactly | packages/agent-core/src/agent-loop.ts:2810-2830 | in every run, while a steer is queued and untold, the watcher is over or blocked on an unresolved wait iff one of its checks threw |
| SteeringQueue.ThrownIsFinal | packages/agent-core/src/agent-loop.ts:2821-2825 | such a watcher never comes back |
| SteeringQueue.PollNotices | packages/agent-core/src/agent-loop.ts:2777 | the poll after another call still tells the batch of a queued steer |
| SteeringQueue.ThrownCheckMissesSteer | packages/agent-core/src/agent-loop.ts:2821-2825 | a run in which the watcher misses a steer that the next poll notices |
| SteeringQueue.SteerIsNoticed | packages/agent-core/src/agent-loop.ts:2810-2830 | each step of the watcher brings it nearer to telling the batch, nothing else takes it away |
| SteeringQueue.NoticedWithinFive | packages/agent-core/src/agent-loop.ts:2810-2830 | a steer that stays queued while no check throws is told within five steps of the watcher |
| AgentLoop.TailIsUnpaired | packages/agent-core/src/agent-loop.ts:567-577 | a context with an unpaired tail is not well paired, so a resumed run owes exactly that batch |
| AgentLoop.ResultsPair | packages/agent-core/src/agent-loop.ts:1404-1473 | in every branch of a turn's end the results answer each call not resolved by the provider once |
| AgentLoop.TurnsEndPaired | packages/agent-core/src/agent-loop.ts:1098-1560 | at every turn's end message and results stand together in the context; every model call sees a well-paired context |
| AgentLoop.StepSound | packages/agent-core/src/agent-loop.ts:1131-1560 | every step keeps the pairing invariant |
| AgentLoop.ModelCallsBounded | packages/agent-core/src/agent-loop.ts:1170-1560 | at most 3(1 + I + T + 8(T+1) + 3R) model calls |
| AgentLoop.StepTurns | packages/agent-core/src/agent-loop.ts:1131-1560 | every step keeps turn starts and ends alternating; which last steps leave a turn open, exactly |
| AgentLoop.OpenTurnExactly | packages/agent-core/src/agent-loop.ts:1060-1560 | a run that is over leaves a turn open iff it ended at the loop's head or stop after a dropped leak; otherwise starts and ends balance |
| AgentLoop.LeakLeavesTurnOpen | packages/agent-core/src/agent-loop.ts:1288-1299 | from every stop boundary with messages, a leaked answer leads to such an end |
| AgentLoop.StopBoundaryReached | packages/agent-core/src/agent-loop.ts:1513-1530 | such a boundary is reached |
| AgentLoop.RunReports | packages/agent-core/src/agent-loop.ts:1060-1560 | a run that does not throw reports exactly what it added to the context |
| AgentLoop.OnlyRequiredToolsRun | packages/agent-core/src/agent-loop.ts:1393-1452 | tools run only for an uncut turn in time, and under a pending requirement only the required one |
| AppendOnlyContext.RollingHash | packages/agent-core/src/append-only-context.ts:327-331 | the int32 loop computes the base-31 polynomial modulo 2^32 |
| AppendOnlyContext.OneUnitShows | packages/agent-core/src/append-only-context.ts:306-334 | a rewrite of any one code unit changes the digest |
| AppendOnlyContext.Manager.MessageDigest | packages/agent-core/src/append-only-context.ts:311-334 | the memo is transparent as long as edits bump the version |
| AppendOnlyContext.Manager.LongestStablePrefix | packages/agent-core/src/append-only-context.ts:296-304 | the length of the longest common prefix of the digests |
| AppendOnlyContext.Manager.SyncMessages | packages/agent-core/src/append-only-context.ts:226-256 | the log is the kept entries and the rest of the list, the digests are the list's; it is the model's step |
| AppendOnlyContext.Manager.ResetSyncCursor | packages/agent-core/src/append-only-context.ts:267-271 | empties log and digests; it is the model's step |
| AppendOnlyContext.Manager.ClearLog | packages/agent-core/src/append-only-context.ts:143-145 | empties the log behind the cursor's back; it is the model's step |
| AppendOnlyContext.Manager.Rewrite | packages/agent-core/src/append-only-context.ts:190-199 | an in-place rewrite with its version bump keeps the memo right; it is the model's step |
| AppendOnlyContext.AppendOnlyLog.Truncate | packages/agent-core/src/append-only-context.ts:137-141 | keeps the first entries |
| AppendOnlyContext.MirrorsExactly | packages/agent-core/src/append-only-context.ts:226-256 | a sync makes the log mirror the list iff no kept entry has another digest than recorded |
| AppendOnlyContext.LogMirrorsList | packages/agent-core/src/append-only-context.ts:226-256 | after every run of syncs, edits that stay in place, clears and resets it does |
| AppendOnlyContext.PrefixRetained | packages/agent-core/src/append-only-context.ts:214-224 | entries before the first divergence are retained untouched unless the list shrank |
| AppendOnlyContext.ReplacedThenEdited | packages/agent-core/src/append-only-context.ts:226-256 | the case in which an entry goes stale |
| SelfTime.Sweep | packages/agent-sys/src/logger.ts:583-596 | the accumulated union is the total length of a family of separate intervals with the same instants |
| SelfTime.ApartIsUnique | packages/agent-sys/src/logger.ts:574-598 | such a family is determined by its instants, so their measure is well defined |
| SelfTime.MeasureIsUnique | packages/agent-sys/src/logger.ts:574-598 | the instants covered by the children have one measure |
| SelfTime.SelfTimeOf | packages/agent-sys/src/logger.ts:575-598 | self time is the duration less the measure of the children, at least 0 |
| SelfTime.ChildrenFit | packages/agent-sys/src/logger.ts:597 | children within their span never take up more than its duration |
| PathTree.BuildPathTree | packages/agent-sys/src/path-tree.ts:67-95 | the loop over the entries builds the tree that holds them |
| PathTree.FoldChain | packages/agent-sys/src/path-tree.ts:109-115 | the folding loop collects the chain of only children |
| PathTree.AddEntryAdds | packages/agent-sys/src/path-tree.ts:55-95 | an entry adds the place of its path unless it is there, and nothing else |
| PathTree.FoldingRoundTrips | packages/agent-sys/src/path-tree.ts:104-119 | reading the walk back gives the leaves of the tree, whatever was folded |
| PathTree.EveryPathOnce | packages/agent-sys/src/path-tree.ts:61-119 | it gives every listed path exactly once, with the key of its first entry, and nothing else |

## Left out

- IncomingRuns.VerdictsStand: is about steady buffers, for a caller who looks at the buffer only; `IncomingEdges.VerdictsExactly` is the exact condition, on every buffer.
- IncomingRuns.ResumeTransparent: is about runs whose pulls find steady buffers, since an index built past an undecided apostrophe may go wrong with it; on steady buffers the condition on the pulls is exact (`IncomingExact.TransparentExactly`).
- IncomingRuns.StrictJsonMixedPaths: gives one direction; the other is `IncomingExact.TransparentExactly`.
- IncomingRuns.ArrayResumeExact: speaks of one pull for the element after the recorded ones, in terms of the index; `IncomingExact.PullExact` is the condition on the pull before.
- IncomingSelect: the kept index is a value that each probe returns, not an object updated in place, so aliasing of index objects is not captured; the scans below it are also given as loops over the cursor (`IncomingCursor`).
- IncomingFinal.PullIsFinalParse: is about JSON texts without duplicate keys, since a pull takes the first of equal keys and the final parser the last, nested no deeper than the limit at which every pull waits, and with finite numbers, since others are never located.
- JsonValue.NumberTokenValue: numbers are exact reals with the range of a double; rounding to a double and the sign of zero are not modelled.
- RelaxedJson: an object is its members in the order of assignment; the order JavaScript gives to integer-like keys and the key `__proto__` are not modelled, and the call stack is unbounded.
- IncomingDoc.IncomingString.Next: waiting itself is not modelled, only the pass that ends in it; `nextLine` and the element and member cursors would add easy members.
- ToolBatch.EveryCallAnswered: speaks of batches that settle; whether a tool ever returns is the environment's business. Arguments, spans and the contents of results are left out.
- SteeringQueue.SteerUnwatchedExactly: is about an agent's own queue, whose look at it is a plain read; a peer's messages have only the timer and no such promise.
- AgentLoop: deadline, abort and terminal signals are choices of the environment at each test, so a passed deadline may be taken not to have passed at a later test; hooks that rewrite the context are left out, as are the contents of messages, the streams of events inside a turn, and the soft requirement state handed back to the host.
- AgentLoop.TurnsEndPaired: the throw at the escalation limit and a failing provider end a run with an assistant message that has no results, and no turn end; the lemma says so.
- AppendOnlyContext.LogMirrorsList: entries appended to the log directly are not modelled, nor messages that are no objects; equal digests are taken for equal messages, as the source does.
- StablePrefix in `packages/agent-core/src/append-only-context.ts`: a cache with a fingerprint; it would only add easy members.
- SelfTime.SelfTimeOf: times are reals and each child ends no earlier than it starts; the library's sort is a stable insertion sort.
- PathTree: trees are values; nodes, their maps and their sets are not updated in place. `formatGroupedPaths` only formats the walk.
- Provider streaming, HTTP, telemetry, dialects, schemas, promises and timers.
- `lru.ts`, `run-collector.ts`, `async.ts`, `pause.ts`, `peek-file.ts`, `fetch-retry.ts` and the applications: routine counters, input and output, or user interface.
