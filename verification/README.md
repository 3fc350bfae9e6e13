# Verified models of an exam backend

These Dafny modules model the parts of the exam backend that carry the most
logic, and prove what those parts do. All source paths are relative to the
repository's root.

- **Filter compiler** (`FilterTree`, `Sql`, `FilterCompiler`, `FilterSyntax`,
  `FilterMeaning`, `Dml`, `FilterFacts`, `FilterValue`, `FilterRows`,
  `Connectors`, `ConnectorsExact`): a recursive JSON filter becomes SQL condition text with numbered placeholders and
  a list of values. A class with the source's mutable value lists is proved equal
  to a functional reading of the JSON. The text is split into words where it was
  spliced in, parsed by a small SQL grammar (NOT tighter than AND, AND tighter
  than OR, tests with IS) and evaluated in three-valued logic over uninterpreted
  elementary conditions, and over the rows of a database in which each operator
  has its own meaning.
- **Exam service** (`ExamService`, `ExamOutcome`): start and end events of exam
  sessions, each one guarded transaction over three tables. Runs are arbitrary
  event sequences.
- **Formulas** (`Tokenizer`, `TokenStream`, `Commas`, `Calc`, `Grammar`,
  `Formula`, `Literals`, `Forms`, `FormReading`, `FormTokens`, `Roman`): the
  tokenizer as a state machine with its clean-up passes, the two-stack evaluator
  over abstract operators, the two composed; a grammar of arithmetic with its
  values and one of whole formulas with their tokens; string literals, quoted
  paths and error values, and Roman numerals.
- **Worksheet structure** (`SheetRows`, `SheetEdit`, `SheetRemove`, `Merge`,
  `Cols`): row and cell normal form, row insertion and removal, merged regions,
  column attributes.
- **Numbers, text and bytes** (`Date`, `CellName`, `BytesReplace`, `Bytes`,
  `Crypt`, `Base64`, `TradeNo`).

## What the proofs show about the code

Where the code keeps less than its documentation or its evident intent, the
model follows the code, and the condition under which the intent holds is
proved.

- An object of a filter with several conditions keeps only the last one but
  hands over the operands of all, and EXPR_IS beside IS is dropped, while beside
  every other operator it qualifies the condition. All written conditions are
  tested, in order and under their qualifiers, if and only if no object holds two
  condition operators, no operator map holds IS beside EXPR_IS, and no JSON path
  condition gives `silent` alone (`FilterFacts.StatementFacts`,
  `FilterFacts.FirstOverwritten`, `FilterValue.QualifierDropped`). A statement
  with connected filters then has the value of both filters as written
  (`FilterValue.StatementValue`). Placeholders number all values if and only if
  no object holds a condition operator with an operand before its last one
  (`FilterFacts.StatementNumbering`, `FilterFacts.OperandLost`), as is always so
  when no object holds two (`FilterFacts.OneEachLast`). Maps are iterated in any
  order in the source; the model takes the members in a given order.
- In a JSON path condition `silent` without `vars` is passed in the position of
  `vars` (`FilterMeaning.CondFact`, `FilterFacts.SilentAlone`).
- The text of `connectBy` is spliced into the condition unchecked. When every
  connector is blank, AND or OR, a filter whose lists begin with a connector,
  lack one later on, or are empty makes text that is not SQL, and every other
  filter makes a condition that means what was read of it
  (`Dml.StatementMeaning`). With other connectors the text can be SQL that means
  something else: `NOT` makes it test the opposite of the filter
  (`Connectors.NegatedStatement`, `Connectors.NotFilter`), `OR 1=1 OR` makes it
  true of every row (`Connectors.AlwaysTrue`, `Connectors.SplicedFilter`), and
  `OR C IS NULL OR` true of the rows without a value in column C
  (`Connectors.ColumnSpliced`, `Connectors.ColumnFilter`). For all filters whose
  connector texts are made of AND, OR, NOT, `1=1` and tests of columns with IS,
  the condition is SQL with as many tests as both filters have conditions, and
  without a NOT or literal, exactly when both are connected or absent
  (`ConnectorsExact.StatementExact`). A later element that passes the textual
  check without a connector (a column named `ORG_ID` does) is one of those that
  are not connected. UPDATE and DELETE without a data condition are not SQL.
- A session without examinees that starts first makes its exam abnormal and
  cancels the timers of the exam's sessions. Events that are in the queue by then
  are handled all the same: after a restart that found all of them due, another
  session of the exam still starts, and its end event is then retried without end
  (`ExamService.AbnormalExam`, `ExamService.ExampleQueue`). When the exams of those
  who wait are no longer pending, no event of any run changes who is stuck: end
  events are retried without end if and only if someone is
  (`ExamService.RunRetriesExact`), and otherwise their number is bounded and the
  session ends up closed (`ExamService.RunRetriesBounded`,
  `ExamService.RunCloses`). A pending exam becomes abnormal in a run if and only if
  an event starts a session of it without examinees while it is pending
  (`ExamService.RunFine`), and those who wait in it then are what end events are
  retried for besides (`ExamService.RunRetriesAll`).
- After every run an exam with sessions has ended if and only if none of its
  sessions goes on, unless it is abnormal (`ExamOutcome.EndedWithLast`).
- A prefix minus directly behind a prefix minus is applied to the operand before
  both (`Calc.EvalTreeExact`, `Calc.DoubleMinusExample`). What comes of the text
  of any arithmetic expression is known all the same (`Formula.FormulaActual`).
- In the tokenizer an error value never ends: the branch for bracketed ranges
  asks for the error flag and comes first. The last token of a formula is
  everything from the first `#` outside strings and paths on
  (`Literals.ErrorTail`, `Literals.ErrorExample`). A doubled quote is never
  recognised: a string literal is one token with its text if and only if the text
  has no quote, and otherwise a token for each piece (`Literals.ReadLiteral`,
  `Literals.StringFormula`, `Literals.QuoteExample`). The same goes for the
  apostrophe in a quoted path (`Literals.ReadPath`, `Literals.PathFormula`,
  `Literals.PathExample`).
- A comma separates arguments directly in a function and unites ranges elsewhere.
  A semicolon is read as the end of an array's row wherever it stands, so that it
  can separate arguments where there is no function (`Commas.CommaKinds`,
  `Commas.LoneSemicolon`).
- The row normaliser loses the cells of a row when a later row begins its number
  anew, and only then (`SheetRows.CellsKeptExact`, `SheetRows.OutOfOrder`). When
  the cells of a row are spread over its columns, cells are lost if and only if
  two of them get the same column (`SheetRows.RowsKeepExact`,
  `SheetRows.SharedColumn`).
- Removing a row should leave of each merged region the cells outside the row.
  A single-cell region of the row takes the one before it in the list with it, or
  makes the code panic; a region that begins in the row and goes on below grows
  over the row above. Where regions of one of these kinds occur at most, all
  regions are left as they should be if and only if there is none
  (`SheetRemove.RemovedRects`, `SheetRemove.SingleRemoved`,
  `SheetRemove.RegionGrows`); both kinds together can make up for each other
  (`SheetRemove.FaultsCancel`), exactly when is stated for regions apart from each
  other (`SheetRemove.RemovedApart`). Entries of the row stay in the calculation
  chain, as entries of the row above (`SheetRemove.ChainExact`).
- Inserting any row drops every single-cell region, and moves what is in the last
  row to where nothing reads it back (`SheetEdit.InsertRemove`).
- A merge that meets an unreadable region has by then removed the overlapping
  ones before it: the list stays as it was exactly when no region before the first
  unreadable one overlaps the request (`Merge.FailedMerge`,
  `Merge.LostInFailure`). An unmerge that meets one leaves the list as it was
  exactly when, before it, the overlapping regions come behind the others, and
  can otherwise leave a region there twice (`Merge.FailedUnmerge`,
  `Merge.UnmergeFailures`). A merge of disjoint regions leaves them disjoint if and
  only if the new region meets none of those kept; it can meet one that it crosses
  and one that was passed before it had grown (`Merge.MergedDisjoint`,
  `Merge.RegionsMeet`).
- Overlapping column ranges: outside the new range a column can take the
  attribute being set from a different old range than before
  (`Cols.OutsideKept`, `Cols.OutsideChanged`).
- Decryption drops eight bytes when the padded length is a positive multiple of
  4096, unless they are zero (`Crypt.DecryptEncrypted`).
- Dates from 31 December 1899 to 28 February 1900 change by a day on the way
  through their serial number, and earlier ones all come back as 30 December 1899
  (`Date.SerialRoundTrip`, `Date.EarlySerial`). Order numbers from 16^15 on, and
  those from -16^14 down, do not survive their trade number
  (`TradeNo.IdRoundTrip`).

## Model

| member | source | states |
|---|---|---|
| `FilterCompiler.Filter.MakeFilter` | backend/cmn/filter.go:332-705 | The compiler with its lists updated in place: text, value lists and error are those of the filter read as a tree, every operand appended behind the placeholders in use, in the order of the text |
| `FilterCompiler.Filter.MakeObject` | backend/cmn/filter.go:389-690 | A filter object: the last condition's text, the values of all, the connector |
| `FilterCompiler.Filter.MakeItems` | backend/cmn/filter.go:359-388 | A filter list: elements skipped, connectors taken over, the missing-connector error, text and values grown element by element |
| `FilterCompiler.Filter.MakePlain` | backend/cmn/filter.go:446-685 | Each operator's text, its errors, and exactly the operands it appends |
| `FilterCompiler.Filter.MakeList` | backend/cmn/filter.go:547-589 | IN and the BETWEEN family: error order, placeholder list, appended values |
| `FilterCompiler.Filter.JsonPathCall` | backend/cmn/filter.go:649-671 | The call's placeholders number path, vars and silent in the order in which their values are appended |
| `FilterCompiler.Filter.Bind` | backend/cmn/filter.go:459-475 | The placeholder is the next free number of the list in use, counted behind `AuthWhereBeginPos` for authorisation values |
| `FilterCompiler.Filter.CreateFilter` | backend/cmn/filter.go:299-330 | Data condition first, then the authorisation condition numbered behind all values; both without their outer brackets; the first error wins |
| `FilterCompiler.TokensSnoc` | backend/cmn/filter.go:360-382 | Text grown element by element is the text of the list, each element numbered behind the values of those before it |
| `FilterCompiler.TextTests` | backend/cmn/filter.go:366-381 | The tests the compiler makes on rendered text (bare connector, empty, begins with OR or AND) decide properties of the tree |
| `FilterSyntax.ReadPlain` | backend/cmn/filter.go:332-705 | Every filter that is accepted reads as a tree the grammar lemmas apply to |
| `FilterSyntax.ReadLinks` | backend/cmn/filter.go:399-411 | A filter whose connector texts are blank, AND or OR in any case reads as a tree with such connectors, those of lists around bare connectors included |
| `FilterSyntax.ParseCond` | backend/cmn/filter.go:446-685 | The text of every elementary condition parses to that condition, whatever follows it |
| `FilterSyntax.ParseTree` | backend/cmn/filter.go:359-388 | The text of every connected tree (lists non-empty, first element without connector, each later one AND or OR) parses to the tree with AND tighter than OR; of the other trees with plain connectors none parses |
| `FilterSyntax.ParseParts` | backend/cmn/filter.go:360-382 | With connectors that are blank, AND or OR, parsing a list reaches its end exactly when the list is connected, and otherwise stops before a token that closes nothing |
| `FilterMeaning.TreeMeaning` | backend/cmn/filter.go:332-705 | The parsed condition, placeholders standing for the appended values, has the three-valued value of the tree read from left to right |
| `FilterMeaning.CondFact` | backend/cmn/filter.go:649-671 | An elementary condition tests what was written if and only if it does not give `silent` without `vars` |
| `FilterMeaning.FactsKept` | backend/cmn/filter.go:332-705 | For every connected tree the conditions the database decides are, in order and under their qualifiers, those of the tree if and only if no JSON path condition gives `silent` alone |
| `FilterMeaning.TreePlaces` | backend/cmn/filter.go:459-475 | The placeholders of a tree are consecutive numbers, one for each value, when no operand is unused; in general they are fewer by the unused operands |
| `Dml.Prepare` | backend/cmn/dml.go:137-220 | Columns and values are collected side by side from the fields that have a value, an update leaving out the key |
| `Dml.FieldsSent` | backend/cmn/dml.go:200-220 | Each field that has a value and, in an update, a column other than `id` in any case is there with its column and its value, in order, and no other field is |
| `Dml.Update` | backend/cmn/dml.go:294-332 | No statement without columns; otherwise the SET list, the combined condition, and SET values before data values before authorisation values |
| `Dml.Filtering` | backend/cmn/dml.go:348-481 | DELETE and SELECT: combined condition and values; only SELECT fills in `1=1` |
| `Sql.ThreeValued` | backend/cmn/filter.go:360-382 | What AND, OR and NOT make of three truth values: the lesser, the greater, the opposite |
| `Dml.SetListAt` | backend/cmn/dml.go:307-311 | Column i of the SET list is assigned placeholder i+1 |
| `Dml.ParseRoot` | backend/cmn/filter.go:304-311 | With plain connectors a whole condition without its outer brackets parses exactly when its tree is connected |
| `Dml.ConditionParses` | backend/cmn/dml.go:312-317 | When the bracketed combination of data and authorisation condition is SQL, and to what it parses: always when both are connected or absent, and with plain connectors only then |
| `Dml.StatementMeaning` | backend/cmn/dml.go:294-332 | For all filters: when the data filter is connected (or absent, in a SELECT) and the authorisation filter connected or absent, the condition of a statement is SQL and holds exactly when what was read of both filters does (for what is read see `FilterFacts.AllWritten`, for the filters as written `FilterValue.StatementValue`); when all connector texts are blank, AND or OR it is SQL only then |
| `FilterFacts.AllWritten` | backend/cmn/filter.go:400-687 | A filter that is read keeps all the conditions written in it, in order and each under the EXPR_IS beside it, if and only if no object holds two condition operators and no operator map IS beside EXPR_IS |
| `FilterFacts.StatementFacts` | backend/cmn/dml.go:294-332 | The database tests exactly the conditions written in both filters, in order and each under the EXPR_IS beside it, if and only if no object holds two of them, no operator map IS beside EXPR_IS, and no JSON path condition gives `silent` alone |
| `FilterFacts.FirstOverwritten` | backend/cmn/filter.go:447-525 | An accepted filter without unused operands of whose two conditions the first is gone |
| `FilterFacts.ReadUnused` | backend/cmn/filter.go:400-687 | A filter that is read has no unused operand if and only if no object holds a condition operator with an operand before its last one |
| `FilterFacts.StatementNumbering` | backend/cmn/dml.go:294-332 | Across SET list, data and authorisation condition the placeholders are 1 to the number of values, each once and in order, if and only if no object of either filter holds a condition operator with an operand before its last one |
| `FilterFacts.OperandLost` | backend/cmn/filter.go:459-475 | An accepted filter whose two conditions leave an operand unused |
| `FilterFacts.SilentAlone` | backend/cmn/filter.go:661-669 | A filter and a row on which the compiled condition is false and the filter true |
| `FilterValue.ReadMeaning` | backend/cmn/filter.go:332-705 | For every accepted filter in which no object holds two conditions and no operator map IS beside EXPR_IS: what is read has, on every row, the value of the JSON (all conditions of an object under their qualifiers, lists from left to right by their connectors) |
| `FilterValue.StatementValue` | backend/cmn/dml.go:294-332 | The condition of a statement with such filters, connected or absent and without a JSON path condition that gives `silent` alone, is SQL and has on every row the value of both JSON filters |
| `FilterValue.QualifierDropped` | backend/cmn/filter.go:519-525 | An accepted filter with EXPR_IS beside IS, and a row on which it is false and its condition true |
| `FilterRows.OperatorRead` | backend/cmn/filter.go:174-216 | Every operator that is accepted is a modifier or makes the test of a cell that its name says: LT below, GT above, LTE and GTE their opposites, EQ and NEQ, LIKE and ILIKE, IN, the four ranges (symmetric ones with the bounds in either order), RE, the JSON operators, the four path functions |
| `FilterRows.OperandNamed` | backend/cmn/filter.go:755-776 | An operand of IS or EXPR_IS is taken for a keyword exactly when it is that word, in any case and with any blanks around it |
| `FilterRows.LinkIs` | backend/cmn/filter.go:359-411 | The connector of a filter, letter by letter in any case: the last one of an object, and of a list the last one that an element without conditions lends it |
| `FilterRows.FilterHolds` | backend/cmn/filter.go:332-705 | On the rows of any database every accepted filter has the value that its operators, by their names, and its connectors, by their letters, give it |
| `FilterRows.StatementTells` | backend/cmn/dml.go:294-332 | The SQL of a statement, evaluated by the meaning of its own symbols on the rows of any database, has the value of both filters by their operators' names (for the filters of `FilterValue.StatementValue`) |
| `FilterRows.ComparisonTold` | backend/cmn/filter.go:454-510 | For all columns of whole numbers and all numbers: a statement with LT, GT, LTE, GTE, EQ or NEQ is true of a row exactly when the column compares so |
| `FilterRows.FilterAccepted` | backend/cmn/filter.go:332-705 | Exactly which filters are accepted: in an object the keys that name a column or the connector, and operators with the operands each takes and a keyword for EXPR_IS (which beside IS is not looked at); in a list elements of which none but the first needs a connector that it does not have |
| `Connectors.NegatedStatement` | backend/cmn/filter.go:402-410 | For all statements whose data and authorisation filter are each connected or carry the connector NOT: the condition is SQL and holds exactly when both filters do, a filter with NOT taken for its opposite |
| `Connectors.NotFilter` | backend/cmn/filter.go:689-691 | A filter with the connector NOT is accepted, and any statement with it tests the opposite |
| `Connectors.AlwaysTrue` | backend/cmn/filter.go:376-384 | For all pairs of connected elements with `OR 1=1 OR` between them: the condition is SQL and true of every row |
| `Connectors.SplicedFilter` | backend/cmn/filter.go:376-384 | Such a list passes the check for AND and OR |
| `Connectors.ColumnSpliced` | backend/cmn/filter.go:376-384 | For all pairs of connected elements with `OR c IS NULL OR` between them, c any column: the condition is SQL, a disjunction of three, and true of every row without a value in c |
| `Connectors.ColumnFilter` | backend/cmn/filter.go:376-384 | Such a list passes the check, has no NOT and no literal, and is not connected |
| `ConnectorsExact.StatementExact` | backend/cmn/dml.go:294-332 | For all filters whose connector texts consist of AND, OR, NOT, `1=1` and tests of columns with IS: the condition is SQL with exactly as many tests as the filters have conditions and no NOT or literal (but the `1=1` of a SELECT) if and only if both filters are connected, or absent where that is allowed |
| `ExamService.ExamService.HandleExamSessionStart` | backend/exam_service/exam-maintenance-serve_latest.go:450-570 | The transaction's outcome on all tables, unchanged when it fails; which timers are cancelled |
| `ExamService.ExamService.HandleExamSessionEnd` | backend/exam_service/exam-maintenance-serve_latest.go:642-756 | The transaction's outcome on all tables, rolled back when the session is missing; a retry is set a minute later exactly when someone has not finished: armed, or queued when already due, all other timers as they were |
| `ExamService.ExamService.CancelExamTimers` | backend/exam_service/exam-maintenance-serve_latest.go:258-295 | Exactly the timers of the exam's sessions that are not deleted go |
| `ExamService.ExamTimerManager.SetExamSessionTimer` | backend/exam_service/exam-maintenance-serve_latest.go:115-159 | The timer of the same type and session is replaced; an event already due goes to the queue instead; no other timer changes |
| `ExamService.ExamTimerManager.CancelExamSessionTimer` | backend/exam_service/exam-maintenance-serve_latest.go:162-173 | Exactly one timer goes |
| `ExamService.ExamService.InitializeExamTimers` | backend/exam_service/exam-maintenance-serve_latest.go:346-384 | After a restart: start and end event of every session the query finds, in order |
| `ExamService.InitialisedPending` | backend/exam_service/exam-maintenance-serve_latest.go:346-384 | Both events of every session are then ahead, in the queue when due and otherwise behind their timer |
| `ExamService.EveryRunSafe` | backend/exam_service/exam-maintenance-serve_latest.go:450-756 | In every run from an all-pending state, events in any order and number: an exam that has ended has no open session, a session under way has an exam under way or abnormal, a closed session only finished examinees; between any two points of the run no status has moved backwards |
| `ExamService.StepKeeps` | backend/exam_service/exam-maintenance-serve_latest.go:450-756 | Each single event keeps these invariants from any state that has them |
| `ExamService.StartTwice` | backend/exam_service/exam-maintenance-serve_latest.go:478-551 | A repeated start event fails |
| `ExamService.EndTwice` | backend/exam_service/exam-maintenance-serve_latest.go:642-756 | An end event handled twice at one moment has the effect of one |
| `ExamService.AgainWhile` | backend/exam_service/exam-maintenance-serve_latest.go:641-716 | An end event is retried if and only if someone waits who cannot be collected yet |
| `ExamService.RetriesExact` | backend/exam_service/exam-maintenance-serve_latest.go:641-734 | A chain of retries reaching the last actual end goes on throughout if and only if someone is stuck: a status that is not collected, no view row or end, or an exam in another status |
| `ExamService.RetriesBounded` | backend/exam_service/exam-maintenance-serve_latest.go:707-716 | Without anyone stuck, retries at least a minute apart number fewer than the minutes to the last actual end, plus one |
| `ExamService.RetriesClose` | backend/exam_service/exam-maintenance-serve_latest.go:707-734 | Without anyone stuck, the first event of the chain that is not retried closes the session |
| `ExamService.RunRetriesExact` | backend/exam_service/exam-maintenance-serve_latest.go:450-756 | The exams of those who wait no longer pending, behind any run of events of any sessions: an end event of the session at or after the last actual end is retried if and only if someone was stuck at the beginning |
| `ExamService.RunRetriesBounded` | backend/exam_service/exam-maintenance-serve_latest.go:450-756 | Without anyone stuck, the retried end events of a session in any run, at least a minute apart, number fewer than the minutes to the last actual end, plus one |
| `ExamService.RunCloses` | backend/exam_service/exam-maintenance-serve_latest.go:450-756 | Without anyone stuck, an end event of the session after both ends leaves it not open to the end of any run |
| `ExamService.RunFine` | backend/exam_service/exam-maintenance-serve_latest.go:450-756 | In any run an exam in '02', '04' or '06' leaves these if and only if some event starts a session of it without examinees while it is pending |
| `ExamService.RunRetriesAll` | backend/exam_service/exam-maintenance-serve_latest.go:450-756 | Behind any run, whatever the exams: an end event of the session at or after the last actual end is retried if and only if someone was stuck at the beginning or someone waits whose exam the run has made abnormal |
| `ExamService.AbnormalExam` | backend/exam_service/exam-maintenance-serve_latest.go:478-520 | A run from queued events in which a session without examinees makes the exam abnormal, another session starts, and every end event of it is retried |
| `ExamService.ExampleQueue` | backend/exam_service/exam-maintenance-serve_latest.go:346-384 | A restart at the end time queues the events of that run |
| `ExamOutcome.EndedExaminees` | backend/exam_service/exam-maintenance-serve_latest.go:642-668 | What an end event does to each examinee: one of the session who is due by the view has submitted ('10') by the view's end if he had begun, and is absent ('02') otherwise; everyone else is as before |
| `ExamOutcome.EndedAgain` | backend/exam_service/exam-maintenance-serve_latest.go:680-716 | It is retried exactly when some examinee of the session then has none of the final statuses, and leaves sessions and exams alone |
| `ExamOutcome.EndedSession` | backend/exam_service/exam-maintenance-serve_latest.go:719-725 | Otherwise a session in '02' or '04' whose end has come is '08' when marked by hand and '06' when not, with its actual end, and no other session changes |
| `ExamOutcome.EndedExam` | backend/exam_service/exam-maintenance-serve_latest.go:737-747 | And its exam, if in '02' or '04', is '06' exactly when none of its sessions is in '02' or '04'; no other exam changes |
| `ExamOutcome.RetryComes` | backend/exam_service/exam-maintenance-serve_latest.go:707-714 | The retry is a minute later, by its timer, or at once when the minute is over |
| `ExamOutcome.Started` | backend/exam_service/exam-maintenance-serve_latest.go:450-562 | When a start event has an effect and what it is, on each exam and session |
| `ExamOutcome.Cancelled` | backend/exam_service/exam-maintenance-serve_latest.go:258-295 | An exam that becomes abnormal loses exactly the timers of its sessions that are not in '14' or '16' |
| `ExamOutcome.EndedWithLast` | backend/exam_service/exam-maintenance-serve_latest.go:450-756 | After every run from an all-pending state, an exam that has sessions is '10', or is '06' if and only if none of its sessions is in '02' or '04' |
| `Tokenizer.Parser.ReadChar` | backend/excelize/efp.go:231-469 | One turn of the loop: all branches in order, on text, tokens, stack and flags |
| `Tokenizer.Parser.ReadSpaces` | backend/excelize/efp.go:377-389 | The loop over spaces, which reads before it looks for the end, stays inside the text |
| `Tokenizer.Parser.Parse` | backend/excelize/efp.go:221-576 | Terminates on every text, reads no character and no neighbour that is not there, and yields the specified token stream |
| `Tokenizer.Tighten` | backend/excelize/efp.go:476-497 | White space between two values becomes an intersection, all other goes, and the first token with it |
| `Tokenizer.Settle` | backend/excelize/efp.go:495-560 | Settling types in place, reading neighbours already settled, equals settling each token by its original neighbour; an infix operator's first character is taken unasked |
| `Tokenizer.SignsThere` | backend/excelize/efp.go:495-560 | Every infix operator without a subtype has that first character after the first two passes |
| `TokenStream.StopsMatch` | backend/excelize/efp.go:175-186 | In every token stream each stop token has the type of the start token it closes |
| `TokenStream.NothingIdle` | backend/excelize/efp.go:476-575 | In every token stream there is no white space and no token to be dropped |
| `TokenStream.SignsFollow` | backend/excelize/efp.go:499-526 | In every token stream an infix plus or minus directly follows a value and a prefix minus does not |
| `Commas.CommaKinds` | backend/excelize/efp.go:440-452 | In the tokens of every text: a union never stands directly in a function, and an argument separator always does unless the text has a semicolon |
| `Commas.LoneSemicolon` | backend/excelize/efp.go:349-359 | `=;` has a separator outside any function |
| `TokenStream.ErrorSwallows` | backend/excelize/efp.go:271-297 | From a state in an error value on the rest of the formula is one token |
| `Literals.ErrorTail` | backend/excelize/efp.go:271-297 | For every formula with a `#` outside strings and paths: the last token is everything from the first one on |
| `Literals.ErrorExample` | backend/excelize/efp.go:271-297 | `#N/A+1` is one operand |
| `Literals.ReadLiteral` | backend/excelize/efp.go:231-252 | In any text and from any idle state a string literal adds one token for each piece between quotes; this is one token with its text if and only if the text has no quote |
| `Literals.StringFormula` | backend/excelize/efp.go:221-576 | The same for the final tokens of a formula that is a string literal |
| `Literals.QuoteExample` | backend/excelize/efp.go:231-252 | `"a""b"` comes out as two texts |
| `Literals.ReadPath` | backend/excelize/efp.go:254-269 | In any text and from any idle state a quoted path leaves a token of unknown type for each piece but the last, which goes on; nothing is left behind and the whole path goes on if and only if it has no apostrophe |
| `Literals.PathFormula` | backend/excelize/efp.go:221-576 | The same for the final tokens of a formula that is a reference behind a path |
| `Literals.PathExample` | backend/excelize/efp.go:254-269 | `'It''s'!A1` comes out as a token `It` and a reference `s!A1` |
| `Formula.ReadExpr` | backend/excelize/efp.go:231-474 | The first pass reads the text of every arithmetic expression as its tokens, from any idle state and inside any text |
| `Formula.TokensOfText` | backend/excelize/efp.go:221-576 | The tokens of an expression's text are those of the expression: tokenising undoes writing |
| `Formula.FormulaActual` | backend/excelize/calc.go:192-333 | What tokenising and evaluating comes to for the text of every numeric expression, doubled minuses and errors included |
| `Formula.FormulaValue` | backend/excelize/calc.go:192-333 | Tokenising the text of an expression and evaluating the tokens yields the value of the expression |
| `FormReading.ReadForm` | backend/excelize/efp.go:231-474 | In any text and from any idle state the first pass reads the text of every formula (numbers, references, texts, signs, all operators, percent, intersections, unions, brackets, calls with any arguments, arrays, blanks) as its raw tokens |
| `FormTokens.FormulaTokens` | backend/excelize/efp.go:221-576 | For every such formula, with or without `=`: the final tokens of its text are those of the formula, a call being its start, the tokens of the arguments with an argument separator between each two, and its stop; an array a function of rows of cells; types and subtypes included |
| `FormTokens.BracketedName` | backend/excelize/efp.go:311-317 | A name with `[` in it is one operand |
| `FormTokens.UnexpectedText` | backend/excelize/efp.go:287-335 | Text directly before a quote, an apostrophe, an error value or an array becomes a token of unknown type, whatever follows |
| `Calc.Stacks.Apply` | backend/excelize/calc.go:482-529 | One operator applied to the operand stack in place, its errors included |
| `Calc.Stacks.ParseOperator` | backend/excelize/calc.go:532-558 | Popping and applying until the operator fits, as the recursive specification does |
| `Calc.Stacks.ParseToken` | backend/excelize/calc.go:585-626 | One token on both stacks |
| `Calc.EvalInfixExp` | backend/excelize/calc.go:192-333 | The evaluator's loop equals the specification that the theorems are about |
| `Calc.RunExpr` | backend/excelize/calc.go:482-556 | The tokens of any expression, read on any stacks, push exactly its value, escaped minuses applied below |
| `Calc.EvalActual` | backend/excelize/calc.go:192-333 | What the evaluator computes on every expression, doubled prefix minuses included: one operand and no operators at the end, or the first error |
| `Calc.EvalTree` | backend/excelize/calc.go:192-333 | Without a doubled prefix minus it is the value of the precedence-respecting, left-associative tree, failing exactly when the tree does |
| `Calc.EvalTreeExact` | backend/excelize/calc.go:192-333 | For free operators the evaluator is right if and only if no prefix minus follows a prefix minus |
| `Calc.MinusesConserved` | backend/excelize/calc.go:482-496 | No minus is lost: those applied and those that escape are those written |
| `Calc.DoubleMinusExample` | backend/excelize/calc.go:532-556 | `2---3` is 1 instead of -1 |
| `Grammar.EvalPhrase` | backend/excelize/calc.go:106-118 | For every phrase of an unambiguous grammar with one sort for each class of operators (`&`; comparisons; `+` `-`; `*` `/`; `^`; prefix minus; numbers and brackets), each class associating to the left: the evaluator computes the value of the phrase |
| `Grammar.PhrasesExact` | backend/excelize/calc.go:106-118 | The phrases are exactly the trees for which `Calc.EvalTree` holds |
| `Grammar.PhraseText` | backend/excelize/calc.go:192-333 | The text of every phrase over numbers, tokenised and evaluated, has the value of the phrase |
| `Roman.ToRoman` | backend/excelize/calc.go:2449-2508 | The encoder's loop, that the decoder reads its result back, and that form 0 is the classical one |
| `Roman.ToArabic` | backend/excelize/calc.go:973-1003 | The decoder's loop equals its specification |
| `Roman.ReadGreedy` | backend/excelize/calc.go:2449-2508 | Greedy output is accepted behind any larger symbol and adds its number |
| `Roman.ArabicRoman` | backend/excelize/calc.go:2449-2508 | For all integers and all five forms decoding undoes encoding, negative numbers giving 0 |
| `Roman.ClassicalForm` | backend/excelize/calc.go:2449-2508 | Form 0 writes every number in the classical way: thousands in M, then each decimal digit in the letters of its place |
| `SheetRows.CheckSheet` | backend/excelize/excelize.go:215-246 | The row normaliser's three passes for every list on which it does not panic |
| `SheetRows.CheckedInOrder` | backend/excelize/excelize.go:215-246 | From rows in order: row i+1 at index i, with the cells of all rows of that number in order and the attributes of the first |
| `SheetRows.CheckedKeepsCells` | backend/excelize/excelize.go:215-246 | From rows in order no cell is lost and none moves before another |
| `SheetRows.CheckedEffective` | backend/excelize/excelize.go:215-246 | Rows in order of which some have no number come out like rows with the numbers they are entered under, every cell kept in order |
| `SheetRows.CellsKeptExact` | backend/excelize/excelize.go:229-241 | For all lists on which the normaliser does not panic: the sheet has the cells of the list, each as often, if and only if no row begins a number anew that an earlier row has entered cells under |
| `SheetRows.Conserved` | backend/excelize/excelize.go:229-241 | Every cell is either in the sheet or overwritten |
| `SheetRows.OutOfOrder` | backend/excelize/excelize.go:229-241 | A list out of order whose first row is overwritten |
| `SheetRows.CheckCells` | backend/excelize/rows.go:634-690 | Naming and spreading the cells of a row: complete, stopped at a name that cannot be read, or out of range |
| `SheetRows.RowCompletes` | backend/excelize/rows.go:634-690 | With names that can be read and a column for every cell the check completes |
| `SheetRows.CheckedLeftToRight` | backend/excelize/rows.go:634-690 | From cells ordered from left to right: cell of column j+1 at index j, each cell kept, blank cells in the gaps |
| `SheetRows.RowKeepsExact` | backend/excelize/rows.go:634-690 | For every row whose check completes: all cells are kept, each as often, if and only if the list is left as it is or no two cells get the same column |
| `SheetRows.RowsKeepExact` | backend/excelize/rows.go:634-690 | The same for each row of a whole list |
| `SheetRows.SharedColumn` | backend/excelize/rows.go:674-686 | Of two cells of one column the first is gone |
| `SheetEdit.Worksheet.AdjustHyperlinks` | backend/excelize/adjust.go:104-142 | Links of a removed row go, links below move, in place and from the end |
| `SheetEdit.Worksheet.AdjustMergeCells` | backend/excelize/adjust.go:251-309 | The in-place loop over regions, double deletion and panic included |
| `SheetEdit.Worksheet.AdjustCalcChain` | backend/excelize/adjust.go:313-335 | Entries move up to the first that cannot be read |
| `SheetEdit.Worksheet.InsertRow` | backend/excelize/rows.go:496-501 | For every sheet: what it is after an insertion, or after the error that stops it, or that the code panics |
| `SheetEdit.Worksheet.RemoveRow` | backend/excelize/rows.go:462-485 | The same for a removal, compaction included |
| `SheetEdit.NormalRestored` | backend/excelize/excelize.go:199-246 | Both checks make the normal form from rows in order (with or without numbers) whose cells go from left to right and are named for their row |
| `SheetEdit.InsertedChecked` | backend/excelize/adjust.go:84-100 | Shifting and normalising rows puts an empty row in place and moves later rows and their cell names by one |
| `SheetEdit.RemovedChecked` | backend/excelize/rows.go:474-485 | Compacting, shifting and normalising removes one row and renames the later ones |
| `SheetEdit.InsertedContent` | backend/excelize/rows.go:496-501 | The map from coordinates to contents: rows before k stay, row k is empty, later rows come from one above |
| `SheetEdit.RemovedContent` | backend/excelize/rows.go:462-485 | The same map after a removal |
| `SheetEdit.InsertRemove` | backend/excelize/rows.go:462-501 | For every sheet in normal form: inserting a row and removing it restores rows, names, links, regions and chain if and only if no region has a single cell, all regions and chain entries can be read, and none of them and no link is in the last row at or below the inserted one |
| `SheetEdit.MovedCells` | backend/excelize/adjust.go:292-301 | A region into which a row is inserted has the cells it had, moved, and the cells of the new row exactly when it has cells above and below |
| `SheetEdit.InsertedRegions` | backend/excelize/adjust.go:251-301 | An insertion keeps exactly the regions with two different cells, in order, each moved |
| `SheetRemove.LeftCells` | backend/excelize/adjust.go:251-301 | What should be left of a region has exactly its cells outside the row, those below moved up |
| `SheetRemove.RightRegions` | backend/excelize/adjust.go:251-301 | What a removal should leave are exactly the regions with two different cells outside the row, in order, each without the row |
| `SheetRemove.RemovedRects` | backend/excelize/adjust.go:251-301 | Unless there are regions of both kinds: the loop leaves the regions it should if and only if none is a single cell of the row and none begins in it, not the first, and goes on below |
| `SheetRemove.RemovedApart` | backend/excelize/adjust.go:251-301 | For all lists of regions apart from each other: the loop leaves the regions it should if and only if the single cells of the row and the two-cell columns that begin in it stand like closing and opening brackets with no region that stays between, and no other region begins in the row and goes on below |
| `SheetRemove.RegionGrows` | backend/excelize/adjust.go:292-301 | A region of rows 2 to 5 takes in a cell of row 1 when row 2 is removed |
| `SheetRemove.SingleRemoved` | backend/excelize/adjust.go:263-280 | Such a single cell takes the region before it with it, or the loop panics |
| `SheetRemove.FaultsCancel` | backend/excelize/adjust.go:251-301 | A list with one region of each kind that is left as it should be |
| `SheetRemove.ChainExact` | backend/excelize/adjust.go:313-335 | The calculation chain is left as it should be if and only if no entry is in the removed row; such an entry stays |
| `SheetRemove.RemovedSheet` | backend/excelize/rows.go:462-485 | The same for a whole sheet: rows, links, regions and chain are left as they should be if and only if none of these regions occurs, no entry is in the row and all links from it on can be read, unless there are regions of both kinds |
| `SheetRemove.RemovedSheetApart` | backend/excelize/rows.go:462-485 | The exact condition for every sheet whose regions are apart from each other |
| `Merge.OverlapExact` | backend/excelize/cell.go:846-860 | The corner test holds if and only if the rectangles intersect and do not form a strict cross |
| `Merge.MergeCells.MergeCell` | backend/excelize/merge.go:39-102 | The list and its count after merging in place, or after the error |
| `Merge.AbsorbParts` | backend/excelize/merge.go:57-95 | The new region is the least rectangle around the request and the removed regions; old list = kept and removed regions interleaved, both in order |
| `Merge.MergeCovers` | backend/excelize/merge.go:57-95 | Every cell covered before, and every cell of the request, is covered afterwards |
| `Merge.FailedMerge` | backend/excelize/merge.go:57-72 | A merge fails exactly when a region cannot be read, and then leaves the list as it was if and only if no region before the first such one overlaps the request |
| `Merge.LostInFailure` | backend/excelize/merge.go:57-72 | A failing merge that has removed a region |
| `Merge.MergedDisjoint` | backend/excelize/merge.go:57-80 | A merge of disjoint regions leaves them disjoint if and only if the new region meets none of those kept |
| `Merge.RegionsMeet` | backend/excelize/merge.go:57-80 | A region that the new one crosses is kept, and one that was passed before the request had grown |
| `Merge.SortedHolds` | backend/excelize/adjust.go:219-229 | For all corners in either order: the rectangle of a request holds exactly the cells between the columns and between the rows |
| `Merge.MergedCorners` | backend/excelize/merge.go:39-102 | A merge from corner to corner: the new region is the least rectangle around both corners and the regions removed, and the others stay in order |
| `Merge.MergedCovers` | backend/excelize/merge.go:39-102 | Afterwards every cell between the corners is covered, and every cell that was |
| `Merge.MergeCells.UnmergeCell` | backend/excelize/merge.go:110-152 | The regions that do not overlap remain; after an error those among the ones before the first unreadable region have been moved to the front, over what stood there |
| `Merge.ApartParts` | backend/excelize/merge.go:129-149 | A region remains if and only if it was there and does not overlap |
| `Merge.FailedUnmerge` | backend/excelize/merge.go:126-152 | An unmerge that fails leaves the list as it was if and only if, before the first unreadable region, all that overlap come behind those that do not |
| `Merge.UnmergeFailures` | backend/excelize/merge.go:126-152 | A failure that changes nothing although a region overlaps, and one that leaves a region there twice |
| `Merge.UnmergedCross` | backend/excelize/merge.go:108-110 | A remaining region intersects the area exactly when it crosses it |
| `Merge.UnmergedCorners` | backend/excelize/merge.go:110-152 | An unmerge from corner to corner: exactly the regions with a corner between the two, or one of the four corners of the area in them, go |
| `Merge.MergeCells.MergeCellsParser` | backend/excelize/cell.go:808-822 | The loop that takes a cell to the anchor of its region |
| `Merge.AnchorIs` | backend/excelize/cell.go:808-822 | In disjoint regions the anchor is the top left cell of the one region the cell is in |
| `Merge.AnchorCorner` | backend/excelize/cell.go:808-822 | In disjoint regions a cell goes to the first column and row of the region it is in, and a cell in none stays |
| `Cols.FlatCols` | backend/excelize/col.go:483-510 | Distinct single-column entries for exactly the old and new columns, with the expected attributes |
| `Cols.GetColVisible` | backend/excelize/col.go:219-241 | The getter reads the last range that covers the column |
| `Cols.GetColOutlineLevel` | backend/excelize/col.go:309-330 | So does this one |
| `Cols.ExpectedIs` | backend/excelize/col.go:483-510 | In the new range all but the attribute being set comes from the last old range; outside the first old range supplies that attribute |
| `Cols.SetterExact` | backend/excelize/col.go:290-299 | Without overlapping ranges only the attribute being set changes, only in the new range |
| `Cols.OutsideKept` | backend/excelize/col.go:498-508 | A column outside the new range reads as before if and only if its first and last old range agree in the attribute being set |
| `Cols.OutsideChanged` | backend/excelize/col.go:498-508 | Two ranges of one column: showing another column hides it |
| `Cols.NewColumn` | backend/excelize/col.go:290-508 | Field by field, for every column of the new range: what is being set (`hidden`; `outlineLevel`; `style`; `width` with `customWidth`) is new, and each other attribute that of the last old range with the column in it |
| `Cols.OldColumn` | backend/excelize/col.go:483-510 | Field by field, for every other column of an old range: what is being set is that of the first such range, the rest that of the last |
| `Cols.NoColumn` | backend/excelize/col.go:483-510 | No other column has an entry |
| `Date.FliegelValid` | backend/excelize/date.go:125-137 | From day -68569 on the result is a valid Gregorian date |
| `Date.FliegelNext` | backend/excelize/date.go:125-137 | The date of the next day number is the calendar successor of the date |
| `Date.FliegelIsCalendar` | backend/excelize/date.go:125-137 | The algorithm counts days on the calendar from 1 March -4900 |
| `Date.NewYear1900` | backend/excelize/date.go:125-137 | 2415021 is 1 January 1900 |
| `Date.FliegelBound` | backend/excelize/date.go:125-137 | One day earlier the result is no date |
| `Date.CalendarInjective` | backend/excelize/date.go:125-137 | Different days have different dates |
| `Date.TimeToExcelTime` | backend/excelize/date.go:31-67 | The loop that peels off saturating durations yields the day count, one more from 1 March 1900 on |
| `Date.TimeFromExcelTime` | backend/excelize/date.go:141-176 | Both branches and the chunking loop yield the calendar date of the serial number |
| `Date.Epochs` | backend/excelize/date.go:141-176 | Serial numbers count from 30 December 1899 or, in the other system, from 1 January 1904 |
| `Date.SerialRoundTrip` | backend/excelize/date.go:31-67 | A date survives the trip through its serial number if and only if it is 1 March 1900 or later, or 30 December 1899, the constants being these dates |
| `Date.EarlySerial` | backend/excelize/date.go:31-67 | Before 1 March 1900 the day before comes back, and for every day up to 30 December 1899 that day |
| `BytesReplace.ReplaceInPlace` | backend/excelize/lib.go:260-287 | Replacement inside the buffer equals pure left-to-right replacement of up to n occurrences |
| `BytesReplace.ReplaceNext` | backend/excelize/lib.go:268-283 | One turn writes below the read index only: what is unread is as it was |
| `BytesReplace.CountEnough` | backend/excelize/lib.go:261-263 | A limit of the length stands for no limit |
| `CellName.ColumnNameToNumber` | backend/excelize/lib.go:131-152 | Bijective base 26 from the right, its errors in order |
| `CellName.ColumnNumberToName` | backend/excelize/lib.go:161-174 | The name built from the right, its errors in order |
| `CellName.ColumnOfName` | backend/excelize/lib.go:161-174 | The number of a number's name is the number |
| `CellName.NameOfColumn` | backend/excelize/lib.go:131-174 | The name of a name's number is the name in upper case |
| `CellName.NameOrder` | backend/excelize/lib.go:161-174 | Shortlex order of names is the order of numbers |
| `CellName.SplitJoined` | backend/excelize/lib.go:86-121 | Splitting undoes joining |
| `CellName.CoordinatesOfCellName` | backend/excelize/lib.go:184-211 | Coordinates survive the trip through the cell name if and only if the row is within the limit |
| `Crypt.CryptPackage` | backend/excelize/crypt.go:528-590 | Result or panic of the chunk loop on a buffer with spare capacity, chunks padded and transformed in place where there is room: the output, and the buffer afterwards, which holds the output where the chunks were, except a last chunk without room for its padding |
| `Crypt.UInt32LE` | backend/excelize/crypt.go:514-518 | The low 32 bits in little-endian order, zeros behind |
| `Crypt.DecEncChunks` | backend/excelize/crypt.go:545-590 | Chunkwise decryption undoes chunkwise encryption for any invertible cipher |
| `Crypt.DecryptEncrypted` | backend/excelize/crypt.go:545-590 | Decrypting an encrypted package yields the zero-padded input if and only if the padded length is 0, or no multiple of 4096, or the last eight encrypted bytes are zero (section 2.3.4.15 of [MS-OFFCRYPTO]) |
| `Crypt.EncryptedLayout` | backend/excelize/crypt.go:528-590 | An encrypted package: eight bytes with the length, then the chunks of 4096 bytes, the last filled up with zeros to a multiple of 16, each encrypted under its own number |
| `Base64.GroupSymbols` | backend/cmn/base64url.go:9-18 | Three bytes are written as the digits to the base 64 of the number they form, the highest first |
| `Base64.DecodeEncode` | backend/cmn/base64url.go:9-40 | Base64 of RFC 4648 section 4 decodes to what was encoded |
| `Base64.UrlRoundTrip` | backend/cmn/base64url.go:9-40 | The URL form (RFC 4648 section 5, without padding) decodes to what was encoded and has no `+`, `/` or `=` |
| `TradeNo.TradeNoNonce` | backend/cmn/utilities.go:489-501 | As many characters as asked for, all from the alphabet |
| `TradeNo.EncodedIdBack` | backend/cmn/utilities.go:503-546 | The encoded order number decodes to the order number |
| `TradeNo.IdRoundTrip` | backend/cmn/utilities.go:503-546 | For every 64-bit order number and every nonce the trade number has length 32, and the order number comes back if and only if its text has at most 15 hexadecimal characters |

## Left out

- Columns whose text contains brackets or spaces of its own (JSON operators on a column), and the exact white space of a condition: conditions are token sequences.
- Connector texts are split at blanks into words, of which the grammar knows AND, OR, NOT, `1=1`, and a column with IS and NULL, TRUE, FALSE or UNKNOWN behind it; comparisons, brackets, comments, other literals and other white space in a connector text are not modelled, and `ConnectorsExact.StatementExact` is about filters with known words only.
- FilterTree.Read: Unicode case mapping beyond ASCII in connectors and keys.
- FilterCompiler.Filter.MakeFilter: operands are JSON values; numeric kinds are not told apart and no database typing is modelled.
- The lower-case `and` between the two conditions of a statement is the token AND, since SQL keywords have no case.
- Sql.Eval: elementary conditions are facts about a row, uninterpreted but for `FilterRows`, where the database compares, matches and looks into JSON by functions of its own; the select list, paging and order are not modelled.
- Dml.Prepare: reflection over record fields is not modelled; a field is a column with an optional value. INSERT only numbers a list and is left out.
- A filter object used for a second statement: the statement theorems are about new filters.
- The force-error hooks of the exam service, logging, the commit itself, and update times.
- The worker goroutines and the bounded queue: transactions are atomic, events may come in any order and number.
- ExamService.ExamTimerManager.SetExamSessionTimer: the callback of a timer that fires, which can delete a timer armed meanwhile, is covered by allowing any events.
- Contents of the examinee view are fixed per examinee, and other services that change examinees during a run are not modelled.
- Formula functions, ranges, text and logical operands, postfix percent and `<>` in the evaluator: their tokens are covered by the tokenizer theorems only.
- The evaluator is compiled against a published package of the same tokenizer; that package is not part of this model, the copy in the repository is.
- Tokenizer.Parser.Parse: a parser that is used a second time, and the renderers.
- Which texts parse as floating-point numbers is a parameter; number formatting and rounding are left to the abstract operators.
- Cell names in `SheetRows` and `SheetEdit` are coordinates, so names that do not parse appear only as rows beyond the limit; columns beyond the limit do not occur.
- The auto filter, relationship files of removed links, formulas and other references, and column insertion.
- Merge.MergeCells.MergeCell: nil entries of the region list, and a missing list, which is an empty one here.
- Cols.FlatCols: reading column names and default attributes of the setters.
- Fractions of a day in dates, and serial numbers that are not whole.
- BytesReplace.ReplaceInPlace: a replacement longer than the text replaced is delegated to the library.
- The ciphers and per-chunk keys of `Crypt` are abstract, keeping the length of whole blocks; the upper four bytes of the header are zero, and errors of the cipher do not occur.
- Overflow of Go integers in very long column names.
- TradeNo.TradeNoNonce: randomness; any characters of the alphabet may come.
