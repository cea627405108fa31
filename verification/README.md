# goflow, modelled and proved in Dafny

A model of the parts of the goflow BPMN engine where mistakes would be hard to see, with proofs of what
those parts promise:

- **The partitioned command path.** Commands on a process instance are hashed to a partition, appended to
  its log and run by the one replica that owns it; owners crash, lose partitions and retry. The protocol is
  a transition system. The owner's loop is an object driven by a script of everything outside it: it does
  exactly the steps the script calls for, these are a run of the system whatever the script, and every run
  of one owner has a script. Replies travel back to waiting calls through shared topics; when a command run
  in place and one run from afar look the same to the caller is settled exactly.
- **The FEEL interpreter.** Lexer, recursive-descent parser and evaluator (clause 10.3 of DMN 1.3), exact
  decimals with a scale, number and duration texts. The parser is proved against a grammar, and the grammar
  against a printer: every expression comes back from its own source text.
- **Smaller cores.** The batching audit writer with its two locks, the lock-free claims of jobs and timers,
  sub-process flattening with the outward search for an error or escalation catcher (section 10.5 of
  BPMN 2.0.2), and the hit policies of decision tables (clause 8.2 of DMN 1.3).

`dafny verify dfyconfig.toml` checks everything.

## Files

| files | what they hold |
|---|---|
| PartitionMachine, PartitionProcessor | the partition's transition system and results over all its runs; the owner's object |
| Routing, CommandBus, ReplyDelivery, Transport | partition of a key; running in place or from afar; pending calls and replies over all replicas; the gateway's object |
| FeelSyntax, FeelGrammar, FeelParser, FeelBuiltins | values, tokens and expressions; the grammar as functions; the parser object; the function names of several words |
| FeelPrinter, FeelTokens, FeelRoundTrip | writing expressions as tokens; where their parts lie; parsing them back |
| FeelLexer, FeelSourceText | characters to tokens; source text to expression and back |
| Rationals, FeelNumbers, DecimalText, FeelNumberText | exact rationals, scales, decimal digits, number texts |
| FeelValues, FeelEval, FeelInput, FeelIterators, FeelMeaning | order and equality; evaluation; what it depends on; what loops mean; what the constructs mean |
| Floats, Durations | whole numbers in binary floats; ISO 8601 durations |
| AuditWriter, Claims | two concurrent protocols and their loops |
| ProcessScopes, ScopeChain, Catchers | flattening, the scope of an element, the search outward |
| HitPolicies, TopLevelSplit | decision tables; splitting lists of literals |

Assumptions about the environment are preconditions or parameters, never axioms: one owner per partition at
a time, an append-only log, attempts that apply wholly or not at all, no owner lost after attempting a command
beyond the first it left unacknowledged (`PartitionMachine.Promised`), random ids that do not repeat,
conditional updates that are atomic, JSON that encodes no value as the empty text, and Unicode's character
classes (`FeelLexer.Sensible`).

## What turned out otherwise

- The owner's loop goes on after a failed acknowledgement, so a command already answered can run again
  unflagged (`PartitionMachine.FailedAcksBreakRedelivery`). Every repeated attempt is flagged exactly as long
  as no owner is lost after attempting a command beyond the first unacknowledged one
  (`PartitionMachine.PromiseIsWeakest`); losing the partition before the next fetch is enough
  (`PartitionMachine.CautiousOwnersStayClose`).
- "The database equals plain in-order application" needs more than idempotence under the redelivered flag:
  the first command after a takeover carries the flag though it never ran. It holds in every run exactly when
  handlers do not look at the flag on a state their command has not touched
  (`PartitionMachine.PlainExactlyWhenFlagBlind`).
- A command whose first attempt is an answer looks different in place and from afar in exactly two cases: an
  error with an empty message arrives as success, and a result that cannot be encoded fails with another message, or fails
  only from afar when nobody asked for it (`CommandBus.ModesAgree`, `CommandBus.UnencodableDiffers`). A
  transient failure is returned in place and retried, never replied, from afar
  (`CommandBus.TransientIsRetried`).
- Nothing makes a call wait for its replica's reader to have found the end of the replies topic: a reply is in
  reach of a waiting call exactly when it lies after that place (`ReplyDelivery.ReplyInReachExactly`,
  `ReplyDelivery.EarlyCallMissesItsReply`).
- A number needing more than twenty decimals, with no recorded scale, is written rounded and does not read
  back; every other does (`FeelNumberText.NumberRoundTrip`).
- Under a unary test `not(...)` asks the tested value even where `usesInput` is false
  (`FeelInput.NotAsksTheInput`), and for the same reason every and some are dual exactly outside tests
  (`FeelIterators.DualExactlyOutsideTests`).
- Whether `=` on two contexts is false or null can depend on the map's iteration order
  (`FeelValues.ComparabilityDependsOnOrder`), exactly when the two can differ both comparably and not
  (`FeelValues.EqualsHasOneOutcome`); "equal and comparable" never does.
- A list indexed by a number whose low 64 bits are the least integer panics, and by no other position
  (`FeelMeaning.IndexMeans`, `FeelMeaning.PositionPanicsExactly`); the entry points turn the panic into an
  error.
- A years-and-months duration does not read back when its years need more than 53 bits, or when it is the
  least one (`Durations.YearMonthRoundTrip`).
- A timer is not returned once but once a round: the scheduler arms one again whose command it could not send,
  and it is claimed anew (`Claims.TimersFireOncePerRound`, `Claims.ReturnedInEveryRound`).
- A timer claim that fails half way leaves timers marked that nobody returns (`Claims.TimersCanBeLost`); none
  is lost exactly when all that aborted claims had taken were armed again or deleted since
  (`Claims.TimersLostExactly`).
- Seven of the twenty-five element lists get no scope recorded (`ProcessScopes.Marked`): flows and
  associations have none, and the other five repeat catch and boundary events that do get one.

## Model

| member | source | states |
|---|---|---|
| PartitionMachine.RedeliverySound | internal/partition/processor.go:127-182 | in every reachable state the offsets run to an answer or skipped as malformed are exactly the first n; beyond the first unacknowledged one lie only malformed records and what the present owner has reached; no offset is acknowledged and no reply sent before its answer; every attempt but the first ever at an offset is flagged |
| PartitionMachine.DatabaseIsSequential | internal/partition/processor.go:111-182 | refinement: if a flagged run on a state holding its effect changes nothing, the database of every reachable state is the log's first n commands applied once each in order, n covering all that is committed or answered |
| PartitionMachine.PlainExactlyWhenFlagBlind | internal/cmdbus/cmdbus.go:273-287 | that sequence is the plain unflagged one in every fully acknowledged run if and only if handlers are blind to the flag on states their command has not touched |
| PartitionMachine.TakeoverBeforeEveryCommand | internal/partition/processor.go:127-148 | for every log there is a run with a takeover before each command, so every command can be the flagged first one |
| PartitionMachine.FailedAcksBreakRedelivery | internal/partition/processor.go:149-152 | without the promise there is a run in which a repeated attempt is not flagged and effects are applied twice |
| PartitionMachine.PromiseIsWeakest | internal/partition/processor.go:127-152 | a step of a promised run keeps the promise if and only if every repeated attempt in every promised run from there on is flagged |
| PartitionMachine.CautiousOwnersStayClose | internal/partition/processor.go:149-152 | runs in which a failed acknowledgement costs the partition before the next fetch keep the promise, and leave at most one offset done and unacknowledged |
| PartitionMachine.StepKeepsOrder | internal/partition/processor.go:130-182 | every step keeps the invariant on cursor, flag, committed offset and history behind the two results above |
| PartitionMachine.StepRefines | internal/partition/processor.go:159-182 | every step keeps the database equal to the sequential application |
| PartitionProcessor.Processor.Own | internal/partition/processor.go:111-153 | for every script the loop takes exactly the steps the script calls for, from being assigned the partition to losing it or dying, reaches the state they lead to, and clears the ownership record |
| PartitionProcessor.Processor.Serve | internal/partition/processor.go:141-152 | a fetched record is run unless malformed and then acknowledged as the script has it; what is left of the script continues the same tenure |
| PartitionProcessor.Processor.RunCommand | internal/partition/processor.go:159-182 | the retry loop follows the script attempt by attempt, every attempt after the first flagged, until answered, taken away or dead |
| PartitionProcessor.Processor.SetOwned | internal/partition/processor.go:67-75 | exactly one partition's entry changes, and with it the answer of Owns for exactly the keys of that partition |
| PartitionProcessor.TenureIsARun | internal/partition/processor.go:111-153 | whatever the script, a tenure is a run of the transition system ending with nobody owning the partition, and a promised run if and only if nothing is left attempted beyond the first unacknowledged command |
| PartitionProcessor.HonestTenureIsCovered | internal/partition/processor.go:149-152 | a script that lets no fetch follow a failed acknowledgement keeps the promise |
| PartitionProcessor.OwnersKeepTheDatabase | internal/partition/processor.go:111-182 | any number of tenures of the loop, one after the other, leave the database equal to the sequential application of the log, every repeated attempt flagged |
| PartitionProcessor.EveryTenureHasAScript | internal/partition/processor.go:111-182 | conversely every run of the system by one owner leads where the loop leads with some script |
| Routing.ComputePartition | internal/cmdbus/cmdbus.go:306-312 | the 64-bit loop gives the big-endian value of the first eight bytes modulo n: nothing is lost to the word size |
| Routing.WrittenWhereRead | internal/partition/transport.go:41-47 | the balancer writes a command to its key's partition and a reply to the one its addressee reads |
| Routing.ComputeName | internal/cmdbus/cmdbus.go:293-302 | the parts joined by zero characters |
| CommandBus.FirstRegistrationWins | internal/cmdbus/cmdbus.go:84-93 | after any history of registrations codes are distinct and each stands for the error it was first given |
| CommandBus.SentinelComesBack | internal/cmdbus/cmdbus.go:228-261 | a registered error's code leads back to that error |
| CommandBus.SameResult | internal/cmdbus/cmdbus.go:188-261 | an encodable result, or none, is decoded alike in both modes |
| CommandBus.SameFailure | internal/cmdbus/cmdbus.go:221-261 | a failure that is an answer keeps its message, its first registered sentinel and matches nothing new, if and only if it has a message |
| CommandBus.UnencodableDiffers | internal/cmdbus/cmdbus.go:196-226 | a result that cannot be encoded never looks the same in both modes |
| CommandBus.ModesAgree | internal/cmdbus/cmdbus.go:134-155 | for a command whose first attempt is final, both modes look alike to the caller of Do if and only if its error has a message, or its result is absent or encodable |
| CommandBus.TransientIsRetried | internal/partition/processor.go:159-182 | attempts failing transiently leave no trace in the reply: from afar the caller sees the first final attempt, in place the first attempt of all |
| CommandBus.SilentFailureIsLost | internal/cmdbus/cmdbus.go:239-247 | a failure without a message comes back as success |
| CommandBus.Bus.RegisterError | internal/cmdbus/cmdbus.go:84-93 | the table is that of the history with one registration more |
| CommandBus.Bus.FindCode | internal/cmdbus/cmdbus.go:228-237 | the search finds the code of the first matching error |
| CommandBus.Bus.FindSentinel | internal/cmdbus/cmdbus.go:249-261 | the search finds the error of a code |
| ReplyDelivery.RepliesReachTheirCalls | internal/partition/transport.go:99-131 | in every run of all replicas, what a call returns or holds carries its own id and was built by executing exactly its own command |
| ReplyDelivery.ReaderNeverBlocks | internal/partition/transport.go:173-182 | a reader with a reply can always go on, changes no other call, and drops a second reply |
| ReplyDelivery.WaitingCallIsFound | internal/partition/transport.go:153-181 | a reply the call's reader has gone past is in the call's channel or in the reader's hand while the call waits; one it stands before is taken up next |
| ReplyDelivery.ReplyInReachExactly | internal/partition/transport.go:84-95 | a waiting call's reader by itself brings it a reply if and only if one lies after the place where that reader opened; replies lie after the call began, so a reader opened before the call suffices |
| ReplyDelivery.EarlyCallMissesItsReply | internal/partition/transport.go:92-96 | a run in which a call is answered before its reader opened and its reply is out of reach |
| ReplyDelivery.StepKeepsSound | internal/partition/transport.go:106-183 | every step keeps the invariant on commands, runs, topic, table and readers |
| Transport.Gateway.Register | internal/partition/transport.go:106-111 | the call gets an empty channel of its own; no other channel changes |
| Transport.Gateway.Forget | internal/partition/transport.go:112-116 | only that call's entry goes |
| Transport.Gateway.Dispatch | internal/partition/transport.go:165-181 | only a decodable reply, addressed here, to a pending call whose channel is empty, changes anything, and only that channel |
| Transport.Gateway.DispatchAll | internal/partition/transport.go:153-183 | after any messages every pending call holds the first reply to it |
| FeelRoundTrip.ParseOfPrint | internal/feel/parser.go:118-674 | every writable expression, written as tokens with parentheses only where precedence needs them, parses to exactly itself and stops at the end |
| FeelSourceText.ParseOfSource | internal/feel/parser.go:102-116 | the same from source text, with any blanks between the tokens that keep them apart: lexing and parsing gives the expression |
| FeelSourceText.ParseOfTightSource | internal/feel/parser.go:102-116 | in particular with as few blanks as possible |
| FeelLexer.LexOfText | internal/feel/lexer.go:41-110 | any lexable tokens, with any blanks that keep them apart, are lexed back, strings with escapes and 1..10 included |
| FeelLexer.TightestSeparates | internal/feel/lexer.go:56-75 | the least spacing keeps the tokens apart |
| FeelLexer.Tokenize | internal/feel/lexer.go:41-110 | the loop over the text computes the piece-by-piece lexing |
| FeelLexer.ReadQuoted | internal/feel/lexer.go:114-148 | the loop over a quoted string computes its value and length |
| FeelBuiltins.BuiltinsArePhrases | internal/feel/builtins.go:72-580 | the built-in names of several words meet what the round trip asks of such names |
| FeelGrammar.Expr | internal/feel/parser.go:118-171 | terminates by remaining tokens and level; success consumes a token and stays inside the list |
| FeelGrammar.Comparison | internal/feel/parser.go:234-271 | the same for comparisons, between and in |
| FeelGrammar.Primary | internal/feel/parser.go:452-554 | the same for literals, names, calls, brackets and ranges |
| FeelGrammar.Arguments | internal/feel/parser.go:576-616 | the same for positional and named arguments |
| FeelGrammar.FunctionSpan | internal/feel/parser.go:559-574 | a function name spans names only, inside the list, and ends before a parenthesis |
| FeelGrammar.ParseUnaryTests | internal/feel/parser.go:676-698 | terminates; success means at least one test |
| FeelRoundTrip.TestsOfPrint | internal/feel/parser.go:676-698 | every list of writable tests, written with commas between, parses back to exactly itself |
| FeelParser.Parser.Parse | internal/feel/parser.go:102-116 | the parser object returns exactly the grammar's expression, and nothing if tokens are left |
| FeelParser.Parser.ParseExpr | internal/feel/parser.go:118-171 | the cursor ends where the grammar says |
| FeelParser.Parser.ParseChain | internal/feel/parser.go:202-232 | the left-associative loops build the grammar's tree |
| FeelParser.Parser.ParseComparison | internal/feel/parser.go:234-271 | as the grammar |
| FeelParser.Parser.ParsePostfix | internal/feel/parser.go:423-450 | as the grammar, paths and filters in one loop |
| FeelParser.Parser.ParsePrimary | internal/feel/parser.go:452-554 | as the grammar |
| FeelParser.Parser.FindFunctionName | internal/feel/parser.go:559-574 | the loop finds the longest function name |
| FeelParser.Parser.ParseArguments | internal/feel/parser.go:576-616 | as the grammar |
| FeelParser.Parser.ParseFields | internal/feel/parser.go:638-674 | as the grammar |
| FeelParser.Parser.ParseEntry | internal/feel/parser.go:676-698 | the comma loop of an input entry returns exactly the grammar's tests |
| FeelNumbers.NaturalScaleIsLeast | internal/feel/scale.go:41-58 | a value has t decimals if and only if its natural scale is between 0 and t: it is the least such t, and -1 exactly when there is none |
| FeelNumbers.ComputeNaturalScale | internal/feel/scale.go:41-58 | the loop dividing out twos and fives computes it |
| FeelNumbers.ArithmeticScale | internal/feel/scale.go:73-85 | sums and differences have exactly the wider scale, products exactly the sum of scales |
| FeelNumbers.DecimalScale | internal/feel/builtins.go:457-468 | decimal gives exactly the scale asked for |
| FeelNumbers.DecimalIsNearest | internal/feel/builtins.go:706-728 | decimal rounds to the nearest multiple of the unit, ties to even, for either sign of the scale |
| FeelNumbers.ScaleTable.ScaleOfObject | internal/feel/scale.go:32-37 | the recorded scale of a number object, or the natural one |
| FeelNumbers.ScaleTable.Record | internal/feel/scale.go:20-30 | a recorded number means the scaled value; every other number keeps its meaning |
| Rationals.AddIsExact | internal/feel/eval.go:462-465 | the reduced sum stands for the exact real sum |
| Rationals.SubIsExact | internal/feel/eval.go:465-466 | the same for differences |
| Rationals.MulIsExact | internal/feel/eval.go:467-468 | the same for products |
| FeelNumberText.LiteralRoundTrip | internal/feel/api.go:238-249 | a non-negative number's text, read as a literal, gives the same value and the same scale if and only if it is written in full |
| FeelNumberText.NumberRoundTrip | internal/feel/builtins.go:75-88 | number(string(x)) is x in value, for either sign, if and only if x is written in full |
| FeelInput.InputIndependence | internal/feel/eval.go:736-784 | an expression for which usesInput is false, with no not(...) outside the tests of an in, has one value for all tested inputs, and the same outside a test |
| FeelInput.Independent | internal/feel/eval.go:62-202 | by induction over all expressions: its outcome depends on the scopes only through variables other than "?" |
| FeelInput.NotAsksTheInput | internal/feel/eval.go:184-199 | not(true) depends on the tested value though usesInput is false |
| FeelIterators.SeveralIteratorsNest | internal/feel/eval.go:206-225 | a loop with several iterators is the nested loops: the same error, the same quantifier value, for a for the inner lists end to end |
| FeelIterators.QuantifiersAreDual | internal/feel/eval.go:124-138 | outside a test every is not3 of some-not and the reverse, errors and non-boolean conditions included |
| FeelIterators.NotDualUnderTest | internal/feel/eval.go:184-191 | under every tested value there are an iterator and a condition for which they are not |
| FeelIterators.DualExactlyOutsideTests | internal/feel/eval.go:124-191 | they are dual for all iterators and conditions if and only if there is no tested value |
| FeelMeaning.LogicIsKleene | internal/feel/eval.go:295-324 | and3, or3 and not3 are least, greatest and opposite in the order false, unknown, true |
| FeelMeaning.OrderIsTotal | internal/feel/eval.go:404-438 | comparable values are totally ordered and tie exactly when they are the same value |
| FeelMeaning.ComparisonsFit | internal/feel/eval.go:329-354 | the six comparisons follow from that order and equality |
| FeelMeaning.BetweenIsInRange | internal/feel/eval.go:84-103 | between is membership in the closed range, errors included, for bounds that are not null and do not ask the tested value |
| FeelMeaning.ForCopies | internal/feel/eval.go:113-123 | for x in l return x is l |
| FeelMeaning.SomeIsContains | internal/feel/eval.go:124-138 | some x in l satisfies x = v is true exactly when l has v |
| FeelMeaning.FilterByEquality | internal/feel/eval.go:673-718 | l[item = v] is the items that are v, in order, whatever entries they bring into scope |
| FeelMeaning.IndexMeans | internal/feel/eval.go:673-718 | which item a position picks, from the front or the back; it panics if and only if its low 64 bits are the least integer |
| FeelMeaning.LeastIndexPanics | internal/feel/eval.go:673-718 | an expression that does |
| FeelMeaning.PositionPanicsExactly | internal/feel/eval.go:673-718 | a list filtered by a constant number panics if and only if that condition holds |
| FeelValues.EqualExactly | internal/feel/eval.go:358-401 | whatever order entries are met in, "equal and comparable" means being the same value |
| FeelValues.EqualityIsAnEquivalence | internal/feel/eval.go:358-401 | so it is symmetric and transitive, and reflexive exactly on range-free values |
| FeelValues.EqualValues | internal/feel/eval.go:358-401 | the loops, meeting entries in any order, give one of the allowed answers |
| FeelValues.ComparabilityDependsOnOrder | internal/feel/eval.go:377-394 | two contexts comparing false in one order and null in the other |
| FeelValues.DifferExactly | internal/feel/eval.go:358-401 | the answers unequal values can give, over all orders, are exactly those some entry or the first unequal item decides, recursively |
| FeelValues.EqualsHasOneOutcome | internal/feel/eval.go:358-401 | = has one answer if and only if the values cannot differ both comparably and not |
| FeelValues.DistinctValues | internal/feel/builtins.go:370-389 | the nested loops keep exactly the first occurrences |
| FeelValues.DistinctAreFirst | internal/feel/builtins.go:370-389 | those stand in the list's order, no two the same, one at each place where no earlier item is the same |
| FeelValues.DistinctHasTheSame | internal/feel/builtins.go:261-272 | a list and its distinct values contain the same things |
| FeelValues.ListContains | internal/feel/builtins.go:261-272 | the loop answers whether the list, and equally its distinct values, has the item |
| Durations.DayTimeRoundTrip | internal/feel/api.go:275-379 | every 64-bit days-and-time duration of whole seconds reads back as itself, through the float products |
| Durations.YearMonthRoundTrip | internal/feel/api.go:275-394 | a years-and-months duration reads back as itself if and only if its years are exact in 53 bits and it is not the least one |
| Durations.YearsUpTo53Bits | internal/feel/api.go:381-394 | so all up to 2^53 years do and the first beyond does not |
| Durations.LeastDurationIsLost | internal/feel/api.go:381-394 | the least duration is written in a form that does not parse |
| Durations.ReadPart | internal/feel/api.go:287-310 | the character loop computes the reading of numerals and units |
| AuditWriter.NothingLostOrDoubled | internal/repository/audit_writer.go:85-121 | in every interleaving history is settled rows, batch in flight and queue, and the table is the accepted settled rows in order |
| AuditWriter.ReadYourWrites | internal/repository/audit_writer.go:98-107 | when a flush has returned the table starts with the accepted rows enqueued before the call |
| AuditWriter.WriterFinishes | internal/repository/audit_writer.go:101-121 | a flusher that has taken its batch can always reach its return |
| AuditWriter.Writer.Enqueue | internal/repository/audit_writer.go:85-96 | the row goes last; the signal is set at 200 rows |
| AuditWriter.Writer.Flush | internal/repository/audit_writer.go:101-121 | the chunk loop writes exactly the accepted rows of the queue, in order, whichever statements fail |
| ProcessScopes.Flatten | internal/engine/subprocess.go:34-69 | each list is that list over all scopes in traversal order; marks and sub-process records follow the walk |
| ProcessScopes.Flattening.AppendScope | internal/engine/subprocess.go:103-186 | every list grows by the scope's; exactly the eighteen marked kinds are marked |
| ProcessScopes.Flattening.Walk | internal/engine/subprocess.go:42-64 | the same for all sub-processes of a scope |
| ScopeChain.ScopeIsImmediate | internal/engine/subprocess.go:26-33 | with unique ids, scopeOf gives an id a scope if and only if the sub-process of that id holds it directly |
| ScopeChain.ScopesAreRanked | internal/engine/subprocess.go:42-64 | scopes lie strictly outward, so chains of them end |
| Catchers.FindAt | internal/engine/errors.go:46-76 | over nodes in any order: a catcher of the exact code, a catch-all only if there is none, nothing if and only if neither stands there |
| Catchers.FindCatcher | internal/engine/errors.go:14-41 | the walk outward finds the best catcher of the first place that has any, for errors and for escalations |
| Catchers.FoundMeans | internal/engine/errors.go:100-151 | what is found stands at the innermost place with a catcher; nothing is found if and only if no place on the chain has one |
| Catchers.SearchGoesOutward | internal/engine/errors.go:24-40 | on the graph of a flattened process the walk ends, and each scope it moves to is the sub-process holding the last one |
| Catchers.Stamp | internal/engine/subprocess.go:190-195 | every node gets its recorded scope; other nodes stay as they are |
| Claims.JobsAreClaimedOnce | internal/repository/distributed_claims.go:27-58 | for any claimers and stale candidates, two grants of one job belong to different pending rounds; no claim gets more than max or anything not granted to it |
| Claims.TimersFireOnce | internal/repository/distributed_claims.go:61-90 | a timer never armed again is returned at most once |
| Claims.TimersFireOncePerRound | internal/repository/distributed_claims.go:61-90 | in every run, the scheduler arming timers again included, two times one timer is returned belong to different rounds |
| Claims.ReturnedInEveryRound | internal/service/timer_scheduler.go:162-172 | for every n there is a run in which a timer armed again n times is returned n + 1 times |
| Claims.TimersAccountedFor | internal/repository/distributed_claims.go:61-90 | every triggered timer was marked by others or taken in its current round by exactly one claim, which holds it |
| Claims.TimersLostExactly | internal/repository/distributed_claims.go:76-86 | no timer is lost if and only if every one an aborted claim had taken was armed again or deleted since |
| Claims.TimersLostByAbortOnly | internal/repository/distributed_claims.go:76-86 | where none was armed again or deleted: if and only if no claim was aborted after taking one |
| Claims.AbortLoses | internal/repository/distributed_claims.go:76-86 | an abort loses exactly the timers the claim took and whose round is still the same |
| Claims.TimersCanBeLost | internal/repository/distributed_claims.go:76-86 | a run in which a claim failing half way loses one |
| Claims.ClaimJobs | internal/repository/distributed_claims.go:40-57 | the candidate loop, others acting in between, takes exactly the steps of a whole claim and returns exactly the candidates whose try succeeded |
| Claims.ClaimTimers | internal/repository/distributed_claims.go:73-89 | the same for timers, every candidate tried |
| Claims.WholeMeans | internal/repository/distributed_claims.go:27-90 | a whole claim is a run: the selection, one try for each candidate in order until max are granted or none is left, and the return of those granted |
| HitPolicies.Evaluate | internal/dmn/evaluate.go:51-126 | the result means what its policy promises of the matching rules; FIRST sees no rule after the first match |
| HitPolicies.SingleHitPoliciesAgree | internal/dmn/evaluate.go:51-126 | on one list of rules: RULE ORDER fails exactly on a broken rule; otherwise FIRST is its head, and UNIQUE and ANY agree with FIRST unless they fail, which is exactly on several matches or differing results |
| HitPolicies.FirstIsDecided | internal/dmn/evaluate.go:53-86 | FIRST answers the first rule that matches or fails, and ignores broken rules after it |
| HitPolicies.OutputOrderIsTheStableSort | internal/dmn/evaluate.go:131-164 | OUTPUT ORDER is RULE ORDER permuted by the stable sort on rank, the same for every algorithm; PRIORITY is its head |
| HitPolicies.StableSortIsUnique | internal/dmn/evaluate.go:152-158 | there is one stable sort |
| HitPolicies.CollectResults | internal/dmn/evaluate.go:167-196 | count, sum, least and greatest of the collected list, or failure exactly on a result that is no number |
| HitPolicies.CollectFoldsRuleOrder | internal/dmn/evaluate.go:114-117 | on one list of rules COLLECT aggregates the list RULE ORDER returns, and fails where it does |
| TopLevelSplit.SplitTopLevel | internal/dmn/evaluate.go:381-410 | joining the parts gives the text back; no part has a separator outside quotes; all but the last end outside quotes |
| TopLevelSplit.SplitIsUnique | internal/dmn/evaluate.go:381-410 | and there is only one such list of parts |

## Left out

- PartitionMachine.DatabaseIsSequential: the flags of the sequential application are those the run used; that they may all be dropped is PlainExactlyWhenFlagBlind.
- PartitionProcessor.Processor.RunCommand: the growing delay between retries, which only paces them.
- FeelRoundTrip.ParseOfPrint: temporal literals, named arguments and bare iterator ranges are parsed by the model but not written, and variables named by a keyword that starts a form are not writable.
- FeelSourceText.ParseOfSource: comments are lexed by the model but not written, and a number literal is written in its formatted form.
- FeelNumberText.NumberRoundTrip: of the texts number() reads, the model has signs, digits and a point; surrounding blanks, fractions and exponents are not in it.
- FeelEval.Eval: division, powers, temporal arithmetic and the built-in functions other than those named are pure parameters; a range between opposite ends of the 64-bit integers, on which the program does not end, has its mathematical values here.
- Durations.DayTimeRoundTrip: durations with fractions of a second, whose text goes through binary floats.
- HitPolicies.CollectResults: numbers are reals; float rounding in a sum is not modelled. Equality of results under ANY is structural, so that a NaN equals itself.
- HitPolicies.Evaluate: how a rule's tests and outputs are evaluated is its input; a table without outputs, on which PRIORITY panics, is not covered.
- CommandBus.ModesAgree: error messages that are not valid UTF-8, which JSON alters on the way.
- AuditWriter.NothingLostOrDoubled: a commit reported as failed that took effect; the ticker and the shutdown flush only call flush.
- Claims.JobsAreClaimedOnce: Postgres isolation and Citus routing; a conditional update is one atomic step.
- ProcessScopes.Flatten: names, mappings and start events of sub-processes, and the linking of each sub-process to its start event.
- The texts of error messages, logging and metrics.
- HTTP, gRPC, SSE and WebSocket, the frontend, SQL repositories beyond the claims, Kafka group membership, the CEL path, the instance notifier, graph wiring and configuration: input, output or foreign libraries.
- FEEL regular expressions, square roots, the clock and float conversions: library behaviour.
