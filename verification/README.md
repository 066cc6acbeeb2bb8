# A verified model of htcondordb's hardest logic

The project models, in Dafny, the parts of htcondordb where a promise spans a loop, a whole run, or two
implementations that must agree, and proves those promises for every input and every run.

* **SQL predicates** (`ansi/`). `SqlPredicate` is the predicate language with SQL's three-valued meaning;
  `AnsiLex` and `AnsiLower` are the tokeniser and the one-pass translator with its polarity flag and its templates
  of open slots; `ClassAd` is the target language with its own evaluation. `AnsiGrammar` shows that the
  translator accepts exactly a grammar, `AnsiText` what text it renders, `AnsiRead` that a ClassAd reader
  makes the intended expression of that text, `AnsiMeaning` that the expression is true exactly when the SQL
  predicate is. `AnsiBound` says what a bound value is worth, `AnsiTheorems` joins them, `AnsiSupported` is the
  subset accepted; `AnsiReserved` and `AnsiQuoted` are the words that mean something to one language only;
  `AnsiParser` is the code's own objects and loops.
* **Federation sinks** (`federate/`). `TableSpec`/`ArchiveSpec` are the two sinks as step functions in which
  every store call may fail with or without effect; `TableRun`/`ArchiveRun` put them in a system with a
  source, sessions, crashes and other writers, and prove an invariant; `TableTheorems`/`ArchiveTheorems` are
  the promises over whole runs, `TableCrash` what a badly timed crash costs, `ArchiveReplay` what one archive
  catch-up leaves whatever its dedup queries find, `ArchiveMissed` what they miss, `TableBeats` how heartbeats are
  stamped, `TableBatch` how much is held back; `TableSink`/`ArchiveSink` are the objects, whose methods end in the state the step functions give. `HubKey`, `ArchiveIdentity` and `Staleness`
  are the key, the dedup identity and the staleness arithmetic.
* **Arrow encoding** (`arrowtype/`, `flightsvc/`). `ArrowSpec` is the per-cell encoder, the column-wise one and
  the relay's batches; `ArrowMeaning` is what a cell says of its value; `ArrowTheorems` proves the paths equal and
  `ArrowTaken` which batches the fast ones take; `ArrowScan` does so for whole reads, framed or in
  process, with records cut on the way; `ArrowDerive` is the type derivation; `ArrowEncoder` the objects and
  loops.
* **Queue responses** (`capi/`). `WireProjection`/`WireRecord` compute an ad's reference closure;
  `Framing` is the record format both ways; `FdWriter` a response written through a socket that may take part
  of a write, fail or be stopped; `ResponseWriter` the buffers and loops; `ConnPool`/`QueuePool` the
  connection pool under every interleaving of its locked sections.
* **Schema memory** (`flightsvc/columntypes.go`). `SchemaMemory` over whole histories of derivations,
  `TypeMemory` the object.
* **Cursor protocols**. `Exporter`/`ExporterSession` are the Kafka exporter's session, `EpochImport` the epoch
  importer.

Where an object of the code changes its fields, the model has a class with those fields, and each method is
proved to end in the state given by a function of the old one; the promises are lemmas about those functions
over every run. `Text` holds shared helpers.

## What the code does not keep

Some promises fail in a corner. Each has a lemma with an input that fails, and a lemma saying exactly when the
promise holds.

* A NULL bound to a slot renders as `false` whatever its polarity. Wherever NULLs stand the text admits every row
  SQL admits, and exactly the rows where the predicate is true with its NULL comparisons read as false
  (`AnsiTheorems.BindAdmitsAll`). Under NOTs it can admit more (`AnsiTheorems.NotEqualsNull`); for a comparison,
  IN or BETWEEN, exactly when the NOTs are odd in number and the row does not settle the atom without the NULL
  (`AnsiTheorems.NegatedNull`).
* A column may be spelled like a word ClassAd keeps (true, false, undefined, error, is, isnt), and is rendered bare.
  The text then reads the first four as constants and does not parse with the other two (`AnsiRead.ReadOut`).
  `error = 1` on an integer column lowers to a text that admits no row, not even one whose error is 1
  (`AnsiReserved.ErrorColumn`). A comparison, IN, BETWEEN or NULL predicate means what SQL means on every typed
  row if and only if its column is not so spelled, or no value satisfies it (`AnsiReserved.KeptIff`).
* The tokeniser drops a delimited identifier's quotes: `Flag = "true"` compares with the truth value
  (`AnsiQuoted.QuotedTrue`). An accepted text is read as SQL reads it if and only if no delimited identifier
  spelled like one of the grammar's nine words stands elsewhere than as a column (`AnsiQuoted.QuotedIff`).
* A cursor save that reports failure after its rename took effect leaves the stored cursor ahead of the sink's. That
  alone is harmless; the table is exposed once rows re-delivered from the older cursor are committed and no later
  save has taken effect (`TableTheorems.Exposure`). Runs in which no crash finds it exposed keep every promise
  (`TableTheorems.SyncedExact`). After any other crash the next session repairs the table exactly when every row
  is as old as the stored cursor or changed again by the source (`TableCrash.CrashRepairedIff`);
  `TableCrash.DirtySaveLoses` is a run that ends with a row it does not repair.
* A resume that re-delivers part of a repeated archive identity drops new records of it
  (`ArchiveReplay.ResumeDropsRepeat`). It ends with the source's records exactly when the hub had, of each
  identity, as many as the source has before the cursor and the probe sees after it (`ArchiveReplay.ResumeExact`);
  where the probe sees all the hub has, when each identity either does not occur before the cursor or was already
  held in full (`ArchiveReplay.RejoinsClear`).
* The exact dedup probe and the loaded identity set disagree on a held record with an ill-typed optional
  part (`ArchiveIdentity.EpochDiffers`, `ArchiveIdentity.MetricsDiffers`), and only there
  (`ArchiveIdentity.ProbeIsSetIff`); never in the history table (`ArchiveIdentity.HistoryAgrees`). The probe never
  finds such a record (`ArchiveMissed.ProbeFindsVisible`), so a second Reset replay appends it again: from an empty
  hub a run ends at Synced with one copy too many, and with another probe budget it does not
  (`ArchiveMissed.ReplayDuplicates`; `ArchiveMissed.EpochDuplicates` is the record). A whole Reset replay ends with
  the source's records if and only if, of every identity it looked up by probe, the probe finds all the hub had
  (`ArchiveReplay.ResetReplayExact`), and two budgets end alike if and only if it does so of what one of them
  probes and the other does not (`ArchiveReplay.BudgetsAgreeIff`). The run theorems
  (`ArchiveTheorems.AlwaysPrefix`, `ArchiveTheorems.SyncedEqual`, `ArchiveTheorems.BudgetDoesNotMatter`) are for
  sources whose every record has an identity and no ill-typed optional part.
* The column-wise encoder takes dictionary strings, which the per-cell one encodes as nulls
  (`ArrowTheorems.FastIsSlowIff`). A framed read keeps a column's dictionary strings exactly when the schema takes
  column-wise every batch that holds one (`ArrowScan.FramedAnswer`); another column can prevent that (`ArrowScan.DictLost`).
* The stream's last flush comes after its errors are reported, so a response whose last chunk never left is
  reported as a success (`FdWriter.LastFlushUnreported`). It is complete exactly when nothing was left to flush, or
  the socket takes it before a stop, an error, an empty write or a failed poll (`FdWriter.CompleteIff`).
* A payload of 4 GiB or more wraps its 32-bit length header (`Framing.FourGiBLost`; `Framing.ChunkRoundTrip` is an if
  and only if).
* Column names keep their place only up to case: a settled column is spelled as remembered exactly when the
  sample does not speak for it or spells it the same (`SchemaMemory.SpellingIff`;
  `SchemaMemory.SpellingFollowsSample` is the smallest case where it is not).
* A Kafka session that produced and then failed to store its state leaves a phantom that a later Reset does not
  sweep, and its version numbers are used again (`Exporter.LostCheckpointLeavesPhantom`); `Exporter.SyncedIff`
  says exactly when a Reset heals the topic.
* An epoch cycle that appended and failed to store its cursor appends again (`EpochImport.FailedStoreRepeats`): the
  archive is the source and, beside it, exactly what unfinished cycles imported, so each record is there once
  if and only if they imported nothing (`EpochImport.ExactlyOnce`).
* The pool can hold one connection over its cap (`ConnPool.OneOverCap`), exactly when the supervisor's own append
  finds it full (`ConnPool.OverCapIff`).
* A bitmap that claims more rows than its column has values makes the column-wise append panic half way
  (`ArrowEncoder.ClaimsTooMany`; `ArrowEncoder.Encoder.AppendColumns` says exactly when).

## Model

| member | source | states |
|---|---|---|
| AnsiLex.LexRoundTrip | ansi/lex.go:38-171 | any list of well-spelled tokens, doubled quotes and exponents included, reads back from its text as itself |
| AnsiLex.NumberLongest | ansi/lex.go:119-143 | a number token is digits and points, perhaps signed and with an exponent, and the longest such piece of the text from where it starts |
| AnsiLex.NumberIff | ansi/lex.go:119-143 | a spelling is one number token exactly when it has that shape |
| AnsiLex.StringBack | ansi/lex.go:76-95 | a string literal with its quotes doubled reads back as the string, ending after the closing quote |
| AnsiLex.Lexer.Next | ansi/lex.go:38-74 | the scanner's position moves to exactly the end of the token it returns, for every kind and for unclosed literals |
| AnsiLex.Lexer.ScanString | ansi/lex.go:76-95 | the loop computes the literal's value and end, or that it never closes |
| AnsiLex.Lexer.ScanQuotedIdent | ansi/lex.go:97-117 | a double-quoted name is an identifier only if every character may stand in one |
| AnsiLex.Lexer.ScanNumber | ansi/lex.go:119-143 | a number takes its exponent only when digits follow it |
| AnsiLex.Lexer.ScanOp | ansi/lex.go:153-171 | two-character operators win over one-character ones |
| AnsiLex.Lexer.All | ansi/lex.go:38-74 | repeated calls give the whole token list |
| AnsiGrammar.CompleteOr | ansi/lower.go:177-191 | the one-pass parser, on a grammatical predicate's tokens, consumes them exactly and gives that predicate's template and parameters, or refuses just when the predicate is unacceptable |
| AnsiGrammar.SoundOr | ansi/lower.go:177-273 | whatever the parser consumes is the token list of some grammatical predicate |
| AnsiGrammar.CompleteUnary | ansi/lower.go:209-230 | NOT flips the polarity its operand is lowered at, parentheses keep it |
| AnsiGrammar.CompleteIn | ansi/lower.go:331-367 | an IN list is read item by item, NOT IN at the flipped polarity |
| AnsiGrammar.CompleteBetween | ansi/lower.go:369-387 | BETWEEN reads two bounds joined by its own AND, always at positive polarity |
| AnsiGrammar.TemplateOf | ansi/lower.go:117-131 | a whole predicate is accepted exactly when grammatical and acceptable, with nothing left over |
| AnsiGrammar.TemplateFrom | ansi/lower.go:117-131 | every accepted token list is some acceptable predicate's |
| AnsiText.BindSeq | ansi/param.go:55-82 | joining fragments at lowering time changes nothing about the bound text |
| AnsiText.RenderSlot | ansi/param.go:197-236 | a bound non-NULL value renders as a literal of that value would lower |
| AnsiText.BindLowered | ansi/param.go:105-123 | binding a lowered predicate's template gives the text of the predicate with literals of the values in place, and is refused exactly when a value does not fit its slot |
| AnsiBound.WrittenIn | ansi/param.go:137-236 | the literal written in for a bound value has exactly that value, sign included, for any reader of decimals |
| AnsiBound.MeaningFilled | ansi/param.go:105-123 | a predicate with such literals in its placeholders' places means what it means over the values |
| AnsiBound.TypedBindable | ansi/param.go:137-214 | a value may be bound exactly when it is NULL or of the class its column is compared with, an integer past the signed range and a non-finite double never |
| AnsiRead.UnescapeEscape | ansi/lower.go:520-541 | a string escaped for ClassAd reads back as itself |
| AnsiRead.LexOut | ansi/lower.go:433-489 | the rendered text splits into the intended tokens whatever follows it |
| AnsiRead.ParseOut | ansi/lower.go:177-230 | the tokens parse to the intended expression, the parentheses written being enough, unless a column is spelled like an operator |
| AnsiRead.ReadOut | ansi/lower.go:100-110 | the lowered text is a ClassAd expression, and which one, if and only if it compares no column spelled `is` or `isnt`; a column spelled like a constant is that constant |
| AnsiReserved.KeptIff | ansi/lower.go:515-518 | an atom means what SQL means on every typed row if and only if its column is not spelled like a word ClassAd keeps or no value satisfies it |
| AnsiReserved.ErrorColumn | ansi/lower.go:515-518 | the column named error, whose accepted comparison admits nothing |
| AnsiQuoted.QuotedIff | ansi/lex.go:97-117 | an accepted text is read as SQL reads it if and only if no delimited identifier spelled like a word of the grammar stands elsewhere than as a column |
| AnsiQuoted.QuotedTrue | ansi/lex.go:97-117 | a delimited "true" read as the truth value |
| AnsiMeaning.Agree | ansi/lower.go:133-147 | at positive polarity the two sides agree on true, at negated polarity on false, through nested NOT, AND, OR, IN and BETWEEN, with bound NULLs unknown where they stand positively or false wherever they stand |
| AnsiMeaning.AgreeAtom | ansi/lower.go:433-489 | a comparison of a column with a literal agrees at the polarity it is lowered at, column undefined or not |
| AnsiMeaning.OperatorsIff | ansi/lower.go:318-329 | the comparison operators of the grammar are those SQL compares numbers with |
| AnsiMeaning.AdmitsLegal | ansi/lower.go:133-147 | the rendered predicate, its columns not spelled like words ClassAd keeps, admits an ad exactly when SQL's value is true |
| AnsiMeaning.NullOneSided | ansi/lower.go:281-316 | reading bound NULLs as false only takes rows away at positive polarity and adds them at negated, in every predicate |
| AnsiMeaning.AdmitsCollapsed | ansi/lower.go:281-316 | wherever its NULLs stand, the rendered predicate admits exactly the rows where it is true with them read as false, and so every row SQL admits |
| AnsiTheorems.LowerKeepsMeaning | ansi/lower.go:100-110 | every accepted predicate that names no column spelled like a word ClassAd keeps lowers to an expression that admits exactly the ads the SQL predicate is true of |
| AnsiTheorems.TextKeepsMeaning | ansi/lower.go:100-131 | the same from the client's text: tokenised, parsed, lowered, read and evaluated |
| AnsiTheorems.TextReaches | ansi/lower.go:100-131 | a predicate spelled out as text is accepted exactly when it is acceptable and has no placeholder |
| AnsiTheorems.LowerAccepts | ansi/lower.go:100-110 | the direct path accepts exactly the acceptable predicates without placeholders |
| AnsiSupported.AcceptIff | ansi/lower.go:433-512 | the refusal rules admit exactly the documented subset: declared columns, values of their class, strings only for equality and only at positive polarity |
| AnsiSupported.LowerSupports | ansi/lower.go:100-110 | the direct path takes exactly that subset |
| AnsiSupported.PrepareSupports | ansi/lower.go:117-131 | so does the prepared path, placeholders standing for any value of the class |
| AnsiTheorems.FillGood | ansi/param.go:197-236 | filling placeholders with fitting values leaves a grammatical, acceptable predicate |
| AnsiTheorems.BindText | ansi/param.go:105-123 | what binding produces, for every predicate and every value list, the literals being those WrittenIn values |
| AnsiTheorems.BindAccepts | ansi/param.go:105-123 | a prepared template binds exactly the value lists of its parameters' number whose values may be compared with their columns |
| AnsiTheorems.BindIsInline | ansi/param.go:105-123 | binding non-NULL values gives exactly the text of lowering the predicate with literals of those values written in |
| AnsiTheorems.BindKeepsMeaning | ansi/param.go:105-123 | a bound template, NULLs at positive slots included, admits exactly the ads for which the predicate over the bound SQL values is true |
| AnsiTheorems.NegatedNull | ansi/lower.go:281-316 | a comparison, IN or BETWEEN with a bound NULL, under n NOTs, agrees with SQL on a row exactly when n is even or the row settles it without the NULL; it never drops a row SQL admits |
| AnsiTheorems.BindAdmitsAll | ansi/param.go:105-123 | a template bound with NULLs anywhere admits every row SQL admits over the bound values, and which rows exactly |
| AnsiTheorems.NotEqualsNull | ansi/lower.go:297-301 | the negated numeric NULL the code admits and SQL does not |
| AnsiParser.RenderString | ansi/lower.go:520-541 | the loop writes the escaped literal |
| AnsiParser.JoinParts | ansi/param.go:55-82 | the fragment-joining loop merges neighbouring text and keeps the slots |
| AnsiParser.BindTemplate | ansi/param.go:105-123 | the loop over fragments gives the template's bound text |
| AnsiParser.Parser.ParseOr | ansi/lower.go:177-191 | the method advances over and lowers what the function says, and records its parameters |
| AnsiParser.Parser.ParseAnd | ansi/lower.go:193-207 | likewise for AND chains |
| AnsiParser.Parser.ParseUnary | ansi/lower.go:209-230 | likewise for NOT and parentheses |
| AnsiParser.Parser.ParsePredicate | ansi/lower.go:234-273 | likewise for the predicate after a column |
| AnsiParser.Parser.ParseOperand | ansi/lower.go:281-316 | likewise for a literal, a NULL or a placeholder |
| AnsiParser.Parser.ParseIn | ansi/lower.go:331-367 | likewise for IN lists |
| AnsiParser.Parser.ParseBetween | ansi/lower.go:369-387 | likewise for BETWEEN |
| AnsiParser.PrepareTemplate | ansi/lower.go:117-131 | the prepared path |
| AnsiParser.LowerPredicate | ansi/lower.go:100-110 | the direct path |
| HubKey.Injective | federate/identity.go:50-53 | two rows share a storage key exactly when their schedds are equal up to case and their source keys are equal |
| Text.AtoiItoa | federate/identity.go:50-53 | the length that leads a key is read back from its digits |
| TableRun.StepInv | federate/tablesink.go:108-335 | every call, session start or end, foreign write, and crash whose stored cursor heals, keeps the invariant, and any call that moved the stored cursor left it healing, even one that reported failure |
| TableRun.SweepMirrors | federate/tablesink.go:244-266 | the sweep leaves exactly the rows the Reset replay touched, which are the source's |
| TableRun.SyncedLiveInv | federate/tablesink.go:148-162 | a Synced after a resume |
| TableRun.SyncedReplayInv | federate/tablesink.go:148-162 | a Synced ending a Reset, whichever batch or save failed |
| TableRun.CommitKeeps | federate/tablesink.go:275-285 | a batch that commits, fails, or fails after taking effect |
| TableTheorems.RunInv | federate/tablesink.go:77-171 | the invariant holds in every reachable state, saves that fail after taking effect included |
| TableTheorems.ExposureStep | federate/cursorstore.go:41-82 | a table not exposed heals from its stored cursor, whichever calls failed with or without effect |
| TableTheorems.NextWithin | federate/tablesink.go:108-335 | an action leaves under the schedd's keys only rows that were in the table or in the open transaction, and the row it upserts |
| TableTheorems.SyncedExact | federate/tablesink.go:148-162 | every session that reaches Synced leaves this schedd's rows equal to the source's, no phantoms, whatever failed or crashed before, unless a crash found the table exposed |
| TableTheorems.FlushExact | federate/tablesink.go:291-328 | after any run from a hub that never followed the schedd, a successful flush in the live tail leaves the rows equal to the source's at the last change delivered |
| TableTheorems.OthersUntouched | federate/tablesink.go:188-266 | no call changes a row of another schedd |
| TableTheorems.CursorHeals | federate/tablesink.go:301-334 | after any such run that ends idle with a committed cursor, one undisturbed session resumed from it makes the rows equal to the source's |
| TableCrash.DirtySaveLoses | federate/cursorstore.go:41-67 | a run from a hub that never followed the schedd, valid up to a crash that finds the table exposed, after which a session that meets no failure leaves a stale row |
| TableCrash.CrashRepairedIff | federate/cursorstore.go:33-67 | whatever a crash finds, the session resumed from the stored cursor mirrors the source exactly when each row is as old as that cursor or changed again past it |
| TableCrash.UnexposedRepaired | federate/cursorstore.go:33-67 | every crash of an unexposed table is repaired |
| TableTheorems.ReceiptsGenuine | federate/tablesink.go:188-240 | over any run from a hub that held no row of this schedd, a stored receipt time is a time at which that same heartbeat arrived outside catch-up |
| TableBeats.HeartbeatStamped | federate/tablesink.go:217-240 | in every run, a heartbeat that is applied is held under the schedd's key with the time it had if it is the one already held, this call's time if it arrived live, none if first met in catch-up, and a successful flush puts it in the table as it is |
| TableBeats.RedeliveryKeepsTime | federate/tablesink.go:217-240 | a held heartbeat keeps its receipt time through any run that redelivers it, for as long as the hub holds the row |
| TableBeats.CatchupExact | federate/tablesink.go:77-162 | what is taken for live: a session and a Reset begin in catch-up, and the Synced that succeeds ends it |
| TableBatch.IdenticalSkips | federate/tablesink.go:188-215 | in catch-up a row stored as it comes costs no write, and every other upsert is one |
| TableBatch.BatchSmall | federate/tablesink.go:164-171 | over any run the open transaction never holds a full batch back |
| TableBatch.CursorFollows | federate/tablesink.go:108-171 | a change that is taken leaves its cursor waiting, or committed with a batch that filled; a Synced commits it |
| TableBatch.UndecodableTouches | federate/tablesink.go:171-186 | a row that cannot be decoded stays as the hub holds it and counts as delivered by a replay |
| TableBatch.SweepSpares | federate/tablesink.go:244-266 | the sweep leaves what the replay delivered as it is |
| Staleness.StalenessBounds | federate/hub.go:717-740 | over any such run, a known staleness is the capped time since that receipt plus the capped lag and interval reported, with nothing overflowing, so never negative |
| Staleness.StalenessExact | federate/hub.go:717-745 | between clock readings staleness is known exactly when a receipt not in the future and a lag not negative are stored, and is then the plain sum of the three capped terms |
| TableSink.TableSink.Apply | federate/tablesink.go:108-171 | the object ends where the step function says, error paths included |
| TableSink.TableSink.Upsert | federate/tablesink.go:188-240 | the row written, its schedd name overwritten and its receipt stamped as HeartbeatStamped says |
| TableSink.TableSink.Sweep | federate/tablesink.go:244-266 | the scan, the batches and the failures of a sweep |
| TableSink.TableSink.FlushBatch | federate/tablesink.go:275-315 | commit, then save the cursor that covers it |
| TableSink.TableSink.Flush | federate/tablesink.go:291-299 | a failed flush discards the batch and fails the session |
| TableSink.TableSink.BeginSession | federate/tablesink.go:77-81 | a session starts with nothing open |
| ArchiveRun.DedupByCount | federate/archivesink.go:221-251 | where the exact query misses nothing held, a replayed record is matched exactly while the replay has met fewer of its identity than the hub held, by probe or by loaded set alike |
| ArchiveRun.LoadOk | federate/archivesink.go:269-290 | loading the set mid-replay keeps every running count |
| ArchiveRun.StepInv | federate/archivesink.go:107-393 | every call, crash that loses an unsynced tail, or foreign append keeps the invariant |
| ArchiveRun.SyncedInv | federate/archivesink.go:198-210 | a Synced that flushes leaves the hub with every source record |
| ArchiveTheorems.AlwaysPrefix | federate/archivesink.go:107-290 | for a source whose records the exact query finds, in every reachable state the hub's records of each identity are a prefix of the source's, and the committed cursor covers only synced appends |
| ArchiveTheorems.SyncedEqual | federate/archivesink.go:198-210 | for such a source, at Synced they are the source's, through any number of interrupted replays |
| ArchiveTheorems.ReplayHasNoCursor | federate/archivesink.go:179-210 | in every reachable state between a Reset and its Synced no cursor is kept or stored, so whatever ends the replay the next session starts anew |
| ArchiveTheorems.IdleHoldsNothing | federate/archivesink.go:110-134 | between sessions the sink holds no dedup state |
| ArchiveRun.CursorFollows | federate/archivesink.go:146-212 | a change that is taken leaves its cursor waiting to be committed, whatever its kind; a Synced commits it |
| ArchiveTheorems.BudgetDoesNotMatter | federate/archivesink.go:221-251 | for such a source, two hubs that switch from probes to the loaded set at different points hold the same archive after the same run |
| ArchiveReplay.ResumeExact | federate/archivesink.go:221-251 | a resume ends with exactly the source's records of every identity if and only if the hub had of each as many as the source has before the cursor and the probe sees after it |
| ArchiveReplay.ResumeDropsRepeat | federate/archivesink.go:221-251 | the repeated identity a resume loses |
| ArchiveReplay.CatchUpExact | federate/archivesink.go:221-290 | any undisturbed catch-up, whatever the exact query finds, adds to the hub's records of an identity all it met but as many from the front as the probe or the loaded set reported |
| ArchiveReplay.RejoinsClear | federate/archivesink.go:221-251 | where the probe sees all the hub has of an identity, a resume is right about it exactly when it does not occur before the cursor or was already held in full |
| ArchiveReplay.ResetReplayExact | federate/archivesink.go:221-290 | a whole Reset replay ends with exactly the source's records if and only if, of every identity it looks up by probe, the probe finds all the hub had |
| ArchiveReplay.BudgetsAgreeIff | federate/archivesink.go:221-290 | two probe budgets end a Reset replay alike if and only if the probe finds all the hub had of what only one of them probes |
| ArchiveMissed.ProbeFindsVisible | federate/identity.go:174-218 | the exact query for an identity finds the records of its digest that hold no ill-typed optional part, and the loaded set counts them all |
| ArchiveMissed.ReplayDuplicates | federate/archivesink.go:221-290 | a run from an empty hub that replays a record the query misses twice: any probe budget ends with two copies, none with one |
| ArchiveMissed.EpochDuplicates | federate/identity.go:99-113 | the job epoch record for which that happens |
| ArchiveSink.ArchiveSink.TestHeld | federate/archivesink.go:221-251 | the look-up's answer and the counts it leaves |
| ArchiveSink.ArchiveSink.CountHeld | federate/archivesink.go:254-264 | the query counts this schedd's records of the identity that it finds |
| ArchiveSink.ArchiveSink.ScanIdentities | federate/archivesink.go:269-290 | the scan counts every identity of this schedd |
| ArchiveSink.ArchiveSink.LoadIdentities | federate/archivesink.go:269-290 | a count already running is kept |
| ArchiveSink.ArchiveSink.FlushAll | federate/archivesink.go:360-373 | sync, then commit the cursor |
| ArchiveSink.ArchiveSink.Apply | federate/archivesink.go:136-210 | the object ends where the step function says |
| ArchiveIdentity.ProbeIsSetIff | federate/identity.go:126-218 | probe and loaded set agree on a held record for every identity exactly when it lacks a required part or holds no ill-typed optional one |
| ArchiveIdentity.DigestExact | federate/identity.go:195-218 | two identities hash the same bytes exactly when they are equal up to case: parts cannot run together |
| ArchiveIdentity.EpochDiffers | federate/identity.go:174-191 | a numeric EpochAdType is counted by the set and missed by the probe |
| ArchiveIdentity.MetricsDiffers | federate/identity.go:99-113 | so is a textual LogSeq of a job metrics sample |
| ArchiveIdentity.HistoryAgrees | federate/identity.go:99-113 | in the history table they never disagree |
| ArchiveIdentity.ExtractIdentity | federate/identity.go:126-142 | the loop yields the identity, or that a required part is missing |
| ArrowTheorems.RowsByColumn | arrowtype/encode.go:285-311 | appending row by row feeds each column its own values, in order |
| ArrowTheorems.ExceptionOfRow | flightsvc/statement.go:811-841 | an unset row's exception is the one as far along as the unset rows before it |
| ArrowTheorems.ColumnAgrees | arrowtype/columns.go:137-191 | a column that fits leaves the cells, nulls and counts the per-cell path would |
| ArrowTheorems.FastIsSlow | arrowtype/columns.go:73-197 | for any well-formed batch of int, real, bool and string columns the column-wise append changes nothing or leaves exactly the per-cell encoder |
| ArrowTheorems.FastIsSlowIff | flightsvc/statement.go:850-884 | with dictionary columns it does so exactly when none of them holds a string |
| ArrowTheorems.TakenColumn | arrowtype/columns.go:137-191 | a batch taken column-wise is encoded as its cells would be, dictionary strings as strings |
| ArrowTheorems.NeverRagged | arrowtype/encode.go:208-472 | whatever is appended, strict or not, every column gains a cell and a count per row |
| ArrowMeaning.EncodeDenotes | arrowtype/encode.go:341-452 | for every kind and value: which pairs are refused, which lose something and what they hold then, which are stored as they are or exactly, and that a cell so stored stands for the value |
| ArrowMeaning.ColumnStates | arrowtype/encode.go:285-472 | a column fed values gains one cell per value that states it, and counts the own, the converted, the lossy and the refused ones exactly |
| ArrowMeaning.RowStates | arrowtype/encode.go:285-340 | a strict row without a fault holds each value itself, or a null for no value where nulls may be |
| ArrowMeaning.RowFault | arrowtype/encode.go:285-472 | a row reports exactly when a value is altered or refused where the encoder is strict or missing where nulls may not be, and the first such column's |
| ArrowMeaning.FindFirst | arrowtype/encode.go:313-340 | a column takes the first attribute of its name in any case |
| ArrowMeaning.AdStates | arrowtype/encode.go:208-340 | a row from an ad states, in each typed column, the attribute of its name |
| ArrowMeaning.TailStates | arrowtype/encode.go:232-257 | the tail holds exactly what no typed column takes, joined in the ad's order |
| ArrowMeaning.TailRow | arrowtype/encode.go:232-257 | a row's tail cell is one ad of every attribute whose name no typed column has |
| ArrowTaken.TakenIff | arrowtype/columns.go:73-135 | a well-formed batch is taken column-wise exactly when there is no tail and each column goes in as it is: its own kind, and set aside only nulls the column admits |
| ArrowTaken.AcceptsIff | arrowtype/columnrows.go:80-150 | the in-process path takes a store batch exactly when each column's values are all of the one kind its column holds |
| ArrowScan.StoreColumnAgrees | flightsvc/localscan.go:96-170 | a store column the in-process path accepts is encoded as its cells would be one by one |
| ArrowScan.FramedAnswer | flightsvc/statement.go:740-775 | however a read is cut into batches and records, a column of the answer is its data encoded cell by cell, dictionary strings as strings, exactly when the schema takes column-wise every batch in which it holds one |
| ArrowScan.TakenBySchema | arrowtype/columns.go:73-95 | whether a batch is taken column-wise turns on the columns' kinds and nullability alone |
| ArrowScan.DictLost | flightsvc/statement.go:740-775 | a batch refused for another column's exception turns a dictionary string into a null |
| ArrowScan.LocalNeverShort | flightsvc/localscan.go:34-81 | a success holds every row of every batch, and "unsupported" means nothing was appended |
| ArrowScan.BuilderSmall | flightsvc/statement.go:740-775 | records are cut as they fill: less than one waits after any batch |
| ArrowScan.SamePath | flightsvc/statement.go:696-775 | a successful read answers with every value once, in order, encoded the same, exactly when it was served in process or the schema takes column-wise every batch in which the column holds a dictionary string |
| ArrowEncoder.UnpackValueColumn | flightsvc/statement.go:811-841 | the single forward pass gives, at each row, the dense value of its rank or the exception found by search |
| ArrowEncoder.RelayColumnValues | flightsvc/statement.go:850-884 | which columns the fast path describes, and how |
| ArrowEncoder.SpreadDense | arrowtype/columns.go:179-197 | dense values land on the set rows in order, or the loop runs past them |
| ArrowEncoder.Encoder.AppendValues | arrowtype/encode.go:285-311 | the row's cells, each stating its value as RowStates says, counts and first fault |
| ArrowEncoder.Encoder.Append | arrowtype/encode.go:208-257 | the same from an ad, as AdStates says, the tail being what no typed column took |
| ArrowEncoder.Encoder.AppendColumns | arrowtype/columns.go:73-95 | all of the batch or none of it, and when it panics instead |
| ArrowEncoder.ClaimsTooMany | arrowtype/columns.go:179-197 | the two-row batch that fits and panics |
| ArrowEncoder.Encoder.TakeBatch | flightsvc/statement.go:740-775 | the encoder ends as the column-wise append leaves it if it took the batch, else as the per-cell path does |
| ArrowEncoder.StoreColumnRows | flightsvc/localscan.go:96-210 | which store columns the in-process path takes, and how |
| ArrowDerive.NullabilityHolds | arrowtype/derive.go:86-100 | no record of a completely profiled table breaks a derived column's nullability, expressions included |
| ArrowDerive.KindHolds | arrowtype/derive.go:365-449 | every value of an evaluated, accurately profiled table goes into the derived column without loss, and its cell stands for it |
| ArrowDerive.DeriveSound | arrowtype/derive.go:310-449 | an encoder whose columns are derived from complete and accurate profiles takes every ad of the table without a fault, strict or not, without an uncoercible, lossy or forbidden null cell, and every cell stands for its ad's value |
| ArrowDerive.DerivedKind | arrowtype/derive.go:365-480 | the derived kind is the one the table's own values call for, or none |
| ArrowDerive.DerivedNullable | arrowtype/derive.go:86-100 | a derived column admits nulls exactly when some record lacks the attribute, holds no value there, or holds an expression |
| ArrowDerive.DeclaredWins | arrowtype/derive.go:310-356 | a declaration overrides the data: exclusion, kind and nullability |
| WireProjection.LeastIsReached | capi/queuerow.go:230-327 | the least closed set is what chains of references from the projection reach through unhidden names |
| WireProjection.WireProjector.constructor | capi/queuerow.go:126-146 | a projected name repeated in any case is taken once |
| WireProjection.NewWireProjector | capi/queuerow.go:126-146 | an empty projection has no projector |
| WireProjection.WireProjector.Want | capi/queuerow.go:159-188 | yes exactly once for each wanted name |
| WireProjection.WireProjector.NoteRef | capi/queuerow.go:197-216 | a reference is new exactly when unlisted and not private |
| WireRecord.PassCloses | capi/queuerow.go:303-316 | a pass that wants nothing new has sent the least closed set |
| WireRecord.EmitProjected | capi/queuerow.go:230-327 | it ends, and sends once each exactly the least set closed under reference, hidden names never passed through; or fails because a member of that set does not render |
| WireRecord.EmitEvery | capi/queuerow.go:230-327 | without a projector every attribute that is not hidden is sent once, in the ad's order |
| WireRecord.FailsOnlyWhenNeeded | capi/queuerow.go:281-288 | no closed set avoids the expression that failed |
| WireRecord.WireExpressions | capi/queuerow.go:280-327 | with or without a projection, the record's count is how many expressions it holds, the server's time included |
| WireRecord.ExpressionBack | capi/queuerow.go:280-290 | a client reads back each expression's name and text |
| Framing.ChunkRoundTrip | capi/queuefd.go:298-308 | walking a chunk recovers each payload in order and ends at its end exactly when every payload's length fits 32 bits |
| Framing.FourGiBLost | capi/queuefd.go:298-308 | the 4 GiB expression a walk does not recover |
| Framing.PayloadRoundTrip | capi/queuefd.go:313-344 | decoding a payload gives back its NUL-free expressions |
| Framing.CedarRoundTrip | capi/queuewire.go:192-248 | the frames of any ads, oversize ones included, reassemble to one message per ad, every body between 1 and the limit |
| Framing.SplitLegal | capi/queuewire.go:232-248 | the end flag is on an ad's last frame only, and every other frame is full |
| FdWriter.ChunkWritten | capi/queuefd.go:117-189 | a chunk goes out whole, or not at all, or (dirty) strictly in part |
| FdWriter.ResponseEnds | capi/queue.go:646-765 | under any partial writes, interrupts, errors or stop, a clean socket holds exactly the ads counted as written, and a dirty one stopped strictly inside the next chunk |
| FdWriter.CleanReadsBack | capi/queuefd.go:266-273 | the client of a clean response reads one message per ad written |
| FdWriter.CompleteIff | capi/queue.go:752-765 | a response that reports no error is clean and complete exactly when nothing was left to flush or the socket takes all of it before anything stops the write |
| FdWriter.PushIff | capi/queuefd.go:150-189 | a write goes out whole exactly when its bytes are taken before a stop, an error, an empty write or a failed poll |
| FdWriter.RowsWait | capi/queue.go:646-700 | between rows less than a mebibyte waits to be written |
| FdWriter.LastFlushUnreported | capi/queue.go:752-765 | the last chunk fails and no error is reported |
| ResponseWriter.ReframeOversize | capi/queuewire.go:232-248 | the loop turns one frame into the run of frames |
| ResponseWriter.EndRecord | capi/queuewire.go:192-206 | patching count and length into the open header closes the record |
| ResponseWriter.AppendRecord | capi/queuewire.go:119-225 | the buffer gains exactly the record of these expressions |
| ResponseWriter.FdConn.WriteAll | capi/queuefd.go:150-189 | the write loop's bytes, dirty flag and result |
| ResponseWriter.FdConn.Write | capi/queuefd.go:117-133 | buffering, and writing through when the buffer would not hold it |
| ResponseWriter.QueueRequest.FlushBuf | capi/queue.go:646-671 | ads are counted as written once their chunk is out |
| ResponseWriter.QueueRequest.Run | capi/queue.go:636-765 | the whole response |
| ConnPool.StepInv | capi/queuepool.go:122-287 | every locked section keeps: one growth dial at most, inUse equal to the leases out, no repeats, at most one connection over the cap |
| ConnPool.RunInv | capi/queuepool.go:122-287 | so does every interleaving of them |
| ConnPool.ReleaseInv | capi/queuepool.go:147-156 | a release never meets a count of zero |
| ConnPool.StaleNeverJoins | capi/queuepool.go:199-222 | no dial begun before a drop joins the pool after it |
| ConnPool.ReapSpares | capi/queuepool.go:265-287 | a reap takes no leased connection and never the first |
| ConnPool.ReapExact | capi/queuepool.go:265-287 | a reap drops exactly the connections after the first that nobody leases and that have been idle two minutes, and keeps the others' order |
| ConnPool.LeavesExact | capi/queuepool.go:231-255 | otherwise a connection leaves exactly when its death is noticed or the supervisor writes the pool off |
| ConnPool.JoinExact | capi/queuepool.go:199-222 | a dialled connection joins, last and unleased, exactly when its generation is current and there is room, or the supervisor dialled it |
| ConnPool.IdleExact | capi/queuepool.go:147-156 | a connection is idle since its last lease came back |
| ConnPool.GrowsExactly | capi/queuepool.go:169-192 | a growth dial starts exactly when every live connection is in use and readiness, room, a free dial and the backoff allow it |
| ConnPool.BackoffExact | capi/queuepool.go:199-215 | over any run the backoff is 2, 4, 8 ... at most 60 seconds by the failures in a row, and a connection that joins clears it |
| ConnPool.AcquireLeast | capi/queuepool.go:122-144 | a query gets the first live connection none is less loaded than |
| ConnPool.OneOverCap | capi/queue.go:243-274 | an interleaving that ends one over the cap, growth joining between the supervisor's check of an empty pool and its showing Connecting |
| ConnPool.OverCapIff | capi/queue.go:243-274 | a step takes the pool over its cap exactly when it is the supervisor's append to a full pool |
| ConnPool.NoGrowthWhileDialing | capi/queuepool.go:169-192 | once Connecting shows, no growth dial begins and only one begun before can join |
| QueuePool.QueueClient.Acquire | capi/queuepool.go:122-192 | eviction, choice, growth and lease as one locked section |
| QueuePool.QueueClient.Release | capi/queuepool.go:147-156 | the lease returned and the idle clock started |
| QueuePool.QueueClient.GrowFinish | capi/queuepool.go:199-222 | a dial's end: backoff, discard or join |
| QueuePool.QueueClient.ReapIdle | capi/queuepool.go:265-287 | the loop drops exactly the unused grown connections |
| QueuePool.QueueClient.CheckSession | capi/queue.go:243-259 | the supervisor dials only for an empty pool |
| QueuePool.QueueClient.BeginDial | capi/queue.go:255-258 | the verdict leaves Ready before the dial |
| SchemaMemory.RetypeExact | flightsvc/columntypes.go:214-365 | over any history a column holds the type of the last three typed measurements to agree; absent and untyped samples neither add nor erase evidence |
| SchemaMemory.PublishedType | flightsvc/columntypes.go:244-293 | a settled column is published with the kind the memory holds after the call, nullable where the sample does not speak for it and as remembered where it does |
| SchemaMemory.PublishedRule | flightsvc/columntypes.go:214-365 | over any history the kind published for a column is that of the last three typed measurements to agree |
| SchemaMemory.NewColumnPublished | flightsvc/columntypes.go:295-326 | a column is remembered with the type it is first published with, as measured |
| SchemaMemory.ObserveStep | flightsvc/columntypes.go:345-365 | one typed measurement moves column and evidence as the three-agreement rule says |
| SchemaMemory.GenerationExact | flightsvc/columntypes.go:371-392 | the generation rises by one exactly when the remembered names and types change |
| SchemaMemory.ChangeNames | flightsvc/columntypes.go:371-392 | a generation's log entry names exactly the columns it added and retyped, in order |
| SchemaMemory.LogKept | flightsvc/columntypes.go:371-392 | the change log names the last 64 generations, one each |
| SchemaMemory.Published | flightsvc/columntypes.go:229-338 | what is published begins with the settled list, and is it for an unprivileged reader below the limit |
| SchemaMemory.LimitKept | flightsvc/columntypes.go:295-326 | the memory never grows past its limit, nor at all for a privileged reader |
| SchemaMemory.TailLast | flightsvc/columntypes.go:328-338 | the tail column is published last and once, exactly if measured |
| SchemaMemory.SchemaOnlyGrows | flightsvc/columntypes.go:229-338 | names an unprivileged reader was shown stay, in order, at the head of what any later reader is shown |
| SchemaMemory.SpellingFollowsSample | flightsvc/columntypes.go:254-263 | a settled column published in another spelling, the smallest case |
| SchemaMemory.SpellingIff | flightsvc/columntypes.go:244-293 | what stands at a settled column's place is spelled as remembered exactly when the sample lacks it, leaves it untyped, measures a type not yet adopted, or spells it the same |
| TypeMemory.TypeMemory.ObserveColumns | flightsvc/columntypes.go:244-293 | the loop over the settled columns, publishing what PublishedType says |
| TypeMemory.TypeMemory.GrowColumns | flightsvc/columntypes.go:295-326 | the loop over new attributes, the cap and the privileged case |
| TypeMemory.TypeMemory.Derive | flightsvc/columntypes.go:214-338 | this table's memory moves and is published as stated, and no other table's moves |
| Exporter.StepExact | kafkasync/exporter.go:131-278 | every step keeps KeyVersions equal to the topic's live keys and last versions |
| Exporter.SyncedIff | kafkasync/exporter.go:251-273 | at the Synced ending a Reset the topic reads as the replayed source exactly when KeyVersions or the replay named every key live in it |
| Exporter.ReplayHeals | kafkasync/exporter.go:244-273 | so a session that started with every live key heals the topic, tombstones included |
| Exporter.SessionExact | kafkasync/exporter.go:131-278 | over any session that starts knowing the topic's live keys and meets no failure, replays and live changes in any order, KeyVersions stays exact and outside a Reset the topic with the queue reads as the source the stream told; at a Synced the topic alone does |
| Exporter.VersionsRise | kafkasync/exporter.go:131-278 | however a session goes, what it put on the topic carries strictly rising versions from the one it started at and below the one it ended at |
| Exporter.SessionsRise | kafkasync/state.go:14-32 | over any number of sessions whose state was stored the whole topic does |
| Exporter.ConsumerConverges | kafkasync/exporter.go:16-18 | a consumer handed the records in any order, any number of times, that keeps the highest version of each key, ends with what the topic says |
| Exporter.RunHoldsBack | kafkasync/exporter.go:283-292 | a session never holds a full batch back |
| Exporter.LostCheckpointLeavesPhantom | kafkasync/exporter.go:171-186 | the crash after which a Reset leaves a phantom and versions repeat |
| ExporterSession.Runner.ProduceBatch | kafkasync/exporter.go:143-158 | only acknowledged records are folded into KeyVersions |
| ExporterSession.Runner.SweepMissing | kafkasync/exporter.go:252-264 | the delete sweep's tombstones |
| ExporterSession.Runner.Handle | kafkasync/exporter.go:197-278 | one turn of the session loop |
| EpochImport.NewRecords | historyimport/epoch.go:68-99 | what a cycle wants of a scan is exactly the records the cursor does not cover |
| EpochImport.NewCursor | historyimport/epoch.go:86-93 | the new boundary covers exactly the source |
| EpochImport.CycleCompletes | historyimport/epoch.go:61-131 | a finished cycle adds each record not yet covered once and covers the whole source |
| EpochImport.ExactlyOnce | historyimport/epoch.go:61-131 | after any interleaving of appends and cycles, a finished cycle leaves the source's records once each and beside them exactly what unfinished cycles imported; so exactly once if and only if those imported nothing |
| EpochImport.FailedStoreRepeats | historyimport/epoch.go:118-129 | the failed cycle that imports again |
| EpochImport.Store.Import | historyimport/epoch.go:61-131 | the callback's appends, boundary and cursor |

## Left out

* Foreign libraries (CEDAR, dbrpc, db, Arrow builders, the Kafka client, gRPC) are abstract: a map with
  transactions, a sequence with a durable prefix, a sequence of cells, a topic, a byte sink.
* ClassAd expressions beyond what lowering produces, and floating-point detail: doubles are reals or
  non-finite, and a numeral's value is whatever the shared reader gives it.
- AnsiTheorems.LowerKeepsMeaning: says nothing of predicates that name a column spelled like a word ClassAd keeps, which KeptIff settles atom by atom.
- AnsiTheorems.TextKeepsMeaning: likewise, and the predicate it speaks of is the code's reading of the tokens; QuotedIff says when that is SQL's.
* The text of errors: a refusal is a refusal.
* The stream a sink follows obeys its own contract: an empty cursor brings a Reset, a Reset and its replay carry
  empty cursors until Synced, and a resume delivers the changes after the cursor in order.
- TableTheorems.SyncedExact: excludes crashes that find the table exposed; CrashRepairedIff says exactly which of those are repaired.
- ArchiveTheorems.SyncedEqual: repeated identities are covered for Reset replays only, and every source record carries an identity and is one the exact query finds; ResetReplayExact and ReplayDuplicates say what happens to the others.
- ArchiveTheorems.AlwaysPrefix: the same sources.
- ArchiveTheorems.BudgetDoesNotMatter: the same sources; BudgetsAgreeIff settles a Reset replay of the others.
* Archive retention floors, too-deep records and undecodable ads, and runs with records that have no identity (`ArchiveReplay` covers one catch-up of them).
* `identityFromValues` reads a projection where `archiveIdentity` reads an ad; both are `Identity` here. Numbers held
  as reals and the hash itself are not modelled: what is hashed stands for the digest.
- ArrowTheorems.FastIsSlow: dictionary columns are excluded; FastIsSlowIff and FramedAnswer say what happens on them.
- ArrowScan.LocalNeverShort: assumes the reader did not cancel; a flush refused by a cancelled reader ends the scan early.
* A list or nested ad and the text of a value in a text column are known by the value only; the string builder's
  raw bytes at null rows are not modelled.
- ArrowDerive.DeriveSound: attributes with an override or an epoch declaration are excluded, since both let the data disagree.
- FdWriter.ResponseEnds: covers the session in the clear; the CEDAR stream frames an encrypted one.
* The text-row path's projection by name and the per-universe counts.
* The stream's restarts when the database refuses a row format.
- ConnPool.RunInv: the cap is fixed, the backoff between the supervisor's own dials is a choice, and closing sockets is left out.
* The column-type file on disk and its reload, and the prose of a change's reason.
- SchemaMemory.SchemaOnlyGrows: names are compared up to case, and kinds are ones this build knows.
* Exporter headers, status beats and reconnect pacing.
- EpochImport.ExactlyOnce: no per-cycle cap, no skipped records, dates positive and non-decreasing, keys distinct within a second.
* Hub discovery, retirement, memory budgeting, authentication, prepared-statement handles and metrics: policy and plumbing
  that would add only easy members.
